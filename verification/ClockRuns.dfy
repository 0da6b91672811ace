/** The regulatory clocks of a dispute in every state it can reach. */
module ClockRuns {
  import opened Prelude
  import opened Regimes
  import opened Lifecycle
  import opened Calendars
  import opened Deadlines
  import opened BankingCore
  import opened Cases

  /** The row's clocks in cycle 0, then one resolution clock for each appeal. */
  ghost predicate Arranged(clocks: seq<Clock>, appeals: nat, ds: seq<Deadline>) {
    && |ds| == |clocks| + appeals
    && (forall i | 0 <= i < |clocks| :: ds[i].kind == clocks[i].kind && ds[i].cycle == 0)
    && (forall i | |clocks| <= i < |ds| :: ds[i].kind == ResolutionClock && ds[i].cycle == i - |clocks| + 1)
  }

  /** How one clock stands, given the state and the number of appeals. */
  ghost predicate Stands(d: Deadline, state: State, appeals: nat) {
    && !(d.metAt.Some? && d.voidedAt.Some?)
    && d.cycle <= appeals
    && (state == Closed ==> !d.Open())
    && (d.kind == ResolutionClock ==> d.voidedAt.None? && (d.Open() <==> d.cycle == appeals && state != Closed))
    && (d.kind == AcknowledgeClock ==> d.metAt.Some? && d.metAt.value <= d.dueAt)
  }

  ghost predicate ClockInv(s: Setup, c: Case) {
    && c.rec.regime in s.rules
    && Arranged(s.rules[c.rec.regime].clocks, c.rec.appeals, c.deadlines)
    && forall d | d in c.deadlines :: Stands(d, c.rec.state, c.rec.appeals)
  }

  /** What one attempt may do to clocks that exist: settle an open one, never move or unsettle any. */
  ghost predicate OnlySettles(ds: seq<Deadline>, ds': seq<Deadline>) {
    && |ds| <= |ds'|
    && forall i | 0 <= i < |ds| ::
         && ds'[i].(metAt := ds[i].metAt, voidedAt := ds[i].voidedAt) == ds[i]
         && (!ds[i].Open() ==> ds'[i] == ds[i])
  }

  lemma OpeningEstablishesClocks(s: Setup, input: OpenInput, env: Env)
    requires Open(s, input, env).Ok?
    ensures ClockInv(s, Open(s, input, env).value)
  {
    var r, c := s.rules[input.regime], Open(s, input, env).value;
    forall i | 0 <= i < |r.clocks| ensures Stands(c.deadlines[i], Initiated, 0) {
      DueIsNotBeforeTheStart(env.calendar, env.now, r.clocks[i]);
    }
  }

  lemma AttemptKeepsClocks(s: Setup, c: Case, core: CoreState, job: Job, env: Env)
    requires ClockInv(s, c) && WellFormedTable(s.rules)
    ensures var c' := Attempt(s, c, core, job, env).after;
            ClockInv(s, c') && OnlySettles(c.deadlines, c'.deadlines)
  {
    var c' := Attempt(s, c, core, job, env).after;
    if c' != c && job.Dispatch? {
      var next := ClockEffect(s, c, core, job.req, env);
      var r := s.rules[c.rec.regime];
      var only :| r.OnlyResolutionClock(only);
      EventKeepsClocks(r, c.deadlines, c.rec.Lifecycle(), next, job.req.event, env, only);
    }
  }

  lemma ClockEffect(s: Setup, c: Case, core: CoreState, req: Request, env: Env) returns (next: Dispute)
    requires CommitEvent(s, c, c, core, req, env).result.Pass?
    ensures c.rec.regime in s.rules
    ensures var r, c' := s.rules[c.rec.regime], CommitEvent(s, c, c, core, req, env).after;
            && Advance(r, c.rec.Lifecycle(), req.event) == Ok(next)
            && c'.rec.Lifecycle() == next
            && c'.deadlines == Clocked(r, c.deadlines, c.rec.appeals, next, env)
  {
    next := Decide(s, c, req, env).value;
  }

  lemma EventKeepsClocks(r: Rules, ds: seq<Deadline>, d: Dispute, next: Dispute, e: Event, env: Env, only: nat)
    requires Arranged(r.clocks, d.appeals, ds)
    requires forall x | x in ds :: Stands(x, d.state, d.appeals)
    requires Advance(r, d, e) == Ok(next)
    requires r.OnlyResolutionClock(only)
    ensures var ds' := Clocked(r, ds, d.appeals, next, env);
            && Arranged(r.clocks, next.appeals, ds')
            && (forall x | x in ds' :: Stands(x, next.state, next.appeals))
            && OnlySettles(ds, ds')
  {
    var ds' := Clocked(r, ds, d.appeals, next, env);
    AnAppealRestartsOneClock(r.clocks, only, next.appeals, env.now, env.calendar);
    forall i | 0 <= i < |ds|
      ensures Stands(ds'[i], next.state, next.appeals)
      ensures ds'[i].(metAt := ds[i].metAt, voidedAt := ds[i].voidedAt) == ds[i] && (!ds[i].Open() ==> ds'[i] == ds[i])
    {
      assert ds[i] in ds;
      SettlingIsFinal(ds[i], next.state, env.now);
      EventSettlesOne(r, ds[i], d, next, e, env.now);
    }
  }

  lemma EventSettlesOne(r: Rules, x: Deadline, d: Dispute, next: Dispute, e: Event, now: int)
    requires Stands(x, d.state, d.appeals)
    requires Advance(r, d, e) == Ok(next)
    ensures Stands(SettleOne(x, next.state, now), next.state, next.appeals)
  {
  }

  // ---------------------------------------------------------------------------------------------------
  // What the invariant says

  ghost predicate IsResolutionClockOf(ds: seq<Deadline>, i: int, cycle: nat) {
    0 <= i < |ds| && ds[i].kind == ResolutionClock && ds[i].cycle == cycle
  }

  /** Exactly one resolution clock a cycle: met for the past ones, open for the current one unless closed. */
  lemma OneResolutionClockACycle(s: Setup, c: Case, cycle: nat) returns (i: nat)
    requires ClockInv(s, c) && WellFormedTable(s.rules) && cycle <= c.rec.appeals
    ensures IsResolutionClockOf(c.deadlines, i, cycle)
    ensures forall j :: IsResolutionClockOf(c.deadlines, j, cycle) ==> j == i
    ensures c.deadlines[i].Open() <==> cycle == c.rec.appeals && c.rec.state != Closed
    ensures !c.deadlines[i].Open() ==> c.deadlines[i].metAt.Some? && c.deadlines[i].voidedAt.None?
  {
    var clocks := s.rules[c.rec.regime].clocks;
    var only :| s.rules[c.rec.regime].OnlyResolutionClock(only);
    i := if cycle == 0 then only else |clocks| + cycle - 1;
    assert c.deadlines[i] in c.deadlines;
  }

  /** There is a clock still running exactly while the dispute is not closed. */
  lemma AClockRunsUntilClosed(s: Setup, c: Case)
    requires ClockInv(s, c) && WellFormedTable(s.rules)
    ensures (exists d :: d in c.deadlines && d.Open()) <==> c.rec.state != Closed
  {
    var i := OneResolutionClockACycle(s, c, c.rec.appeals);
    assert c.deadlines[i] in c.deadlines;
  }

  /** A clock starts now, and runs out so many working or calendar days later. */
  ghost predicate StartsNow(d: Deadline, clock: Clock, now: int, cal: Calendar) {
    d.startedAt == now && RunsOutOn(cal, clock, DayOf(cal, now), DayOf(cal, d.dueAt))
    && DayOf(cal, d.dueAt + 1) == DayOf(cal, d.dueAt) + 1
  }

  lemma AStartedClockRunsOutOnItsDay(clock: Clock, cycle: nat, now: int, cal: Calendar)
    ensures StartsNow(Start(clock, cycle, now, cal), clock, now, cal)
  {
    var day := DueDay(cal, clock.unit, DayOf(cal, now), clock.count);
    RunsOutOnItsDueDay(cal, clock, DayOf(cal, now), day);
    EndOfDayIsInTheDay(cal, day);
    NothingIsLaterThatDay(cal, day);
  }

  /** Each of a row's clocks starts at the opening and runs out on its day; no attempt ever moves it. */
  lemma OpeningClocksRunOutOnTheirDays(s: Setup, input: OpenInput, env: Env, i: nat)
    requires Open(s, input, env).Ok? && i < |s.rules[input.regime].clocks|
    ensures var ds := Open(s, input, env).value.deadlines;
            |ds| == |s.rules[input.regime].clocks|
            && StartsNow(ds[i], s.rules[input.regime].clocks[i], env.now, env.calendar)
  {
    AStartedClockRunsOutOnItsDay(s.rules[input.regime].clocks[i], 0, env.now, env.calendar);
  }

  /** And an appeal starts the row's resolution clock again, at its own instant. */
  lemma AnAppealRunsOutOnItsDay(s: Setup, c: Case, core: CoreState, payload: Payload, env: Env) returns (i: nat)
    requires WellFormedTable(s.rules) && Attempt(s, c, core, Dispatch(Request(Appeal, payload)), env).result.Pass?
    ensures c.rec.regime in s.rules && s.rules[c.rec.regime].OnlyResolutionClock(i)
    ensures var ds := Attempt(s, c, core, Dispatch(Request(Appeal, payload)), env).after.deadlines;
            |ds| == |c.deadlines| + 1
            && StartsNow(ds[|c.deadlines|], s.rules[c.rec.regime].clocks[i], env.now, env.calendar)
  {
    var next := ClockEffect(s, c, core, Request(Appeal, payload), env);
    var r := s.rules[c.rec.regime];
    i :| r.OnlyResolutionClock(i);
    AnAppealRestartsOneClock(r.clocks, i, next.appeals, env.now, env.calendar);
    AStartedClockRunsOutOnItsDay(r.clocks[i], next.appeals, env.now, env.calendar);
  }

  /** The acknowledgement clock reads MET whenever it is looked at. */
  lemma AcknowledgementReadsMet(s: Setup, c: Case, d: Deadline, now: int)
    requires ClockInv(s, c) && d in c.deadlines && d.kind == AcknowledgeClock
    ensures d.Status(now) == Met
  {
  }
}
