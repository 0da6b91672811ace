/**
 * Concurrent requests. Each reads its dispute, decides on what it read, and later compares the version and writes; the
 * row stays locked from that comparison to the commit, and in between the request asks the core at most once. Any
 * number of requests, on any disputes, may be in between, and all of them share the core.
 */
module Interleaving {
  import opened Prelude
  import opened Regimes
  import opened Lifecycle
  import opened BankingCore
  import opened Cases
  import opened Logs
  import opened Runs
  import opened Movements
  import opened Reconciliation

  /** A request that has read its dispute and not yet finished. */
  datatype Pending = Pending(id: Id, seen: Case, job: Job)

  datatype System = System(world: World, inFlight: map<nat, Pending>)

  datatype Tick = Open(input: OpenInput, env: Env) | Read(request: nat, id: Id, job: Job) | Finish(request: nat, env: Env)

  function Step(s: Setup, sys: System, t: Tick): System {
    match t
    case Open(input, env) => sys.(world := Act(s, sys.world, Begin(input, env)))
    case Read(k, id, job) =>
      if id !in sys.world.cases then sys
      else sys.(inFlight := sys.inFlight[k := Pending(id, sys.world.cases[id], job)])
    case Finish(k, env) =>
      if k !in sys.inFlight || sys.inFlight[k].id !in sys.world.cases then sys
      else
        var p := sys.inFlight[k];
        var o := Execute(s, p.seen, sys.world.cases[p.id], sys.world.core, p.job, env);
        System(World(sys.world.cases[p.id := o.after], o.core), sys.inFlight - {k})
  }

  function Schedule(s: Setup, sys: System, ticks: seq<Tick>): System {
    if ticks == [] then sys else Step(s, Schedule(s, sys, ticks[..|ticks| - 1]), ticks[|ticks| - 1])
  }

  /** The request still finds the version it read. */
  predicate Wins(sys: System, request: nat) {
    && request in sys.inFlight && sys.inFlight[request].id in sys.world.cases
    && sys.inFlight[request].seen.rec.version == sys.world.cases[sys.inFlight[request].id].rec.version
  }

  /** What a tick does, as the action of a run in which nobody overlaps: nothing, unless it opens or wins. */
  function AsAction(sys: System, t: Tick): seq<Action> {
    match t
    case Open(input, env) => [Begin(input, env)]
    case Read(_, _, _) => []
    case Finish(k, env) => if Wins(sys, k) then [On(sys.inFlight[k].id, sys.inFlight[k].job, env)] else []
  }

  /** The openings and the winning requests, in the order they took effect. */
  function Winners(s: Setup, sys: System, ticks: seq<Tick>): seq<Action> {
    if ticks == [] then []
    else
      var front := ticks[..|ticks| - 1];
      Winners(s, sys, front) + AsAction(Schedule(s, sys, front), ticks[|ticks| - 1])
  }

  /** Whoever holds the current version of a dispute holds the current dispute. */
  ghost predicate FreshMeansCurrent(sys: System) {
    forall k | k in sys.inFlight ::
      && sys.inFlight[k].id in sys.world.cases
      && IsFresh(sys.inFlight[k].seen, sys.world.cases[sys.inFlight[k].id])
  }

  ghost predicate IsFresh(seen: Case, c: Case) {
    seen.rec.version <= c.rec.version && (seen.rec.version == c.rec.version ==> seen == c)
  }

  /** A request that lost the race changes nothing and never reaches the core. */
  lemma LosersChangeNothing(s: Setup, seen: Case, c: Case, core: CoreState, job: Job, env: Env)
    requires seen.rec.version != c.rec.version
    ensures var o := Execute(s, seen, c, core, job, env);
            && o.after == c && o.core == core
            && (o.result.Pass? ==> job.Move? && job.team == seen.rec.team)
  {
  }

  /** Finishing is the attempt of a run if the request wins, and nothing if it loses. */
  lemma FinishIsAnAttempt(s: Setup, seen: Case, c: Case, core: CoreState, job: Job, env: Env)
    requires IsFresh(seen, c)
    ensures var o := Execute(s, seen, c, core, job, env);
            && (if seen.rec.version == c.rec.version then o == Attempt(s, c, core, job, env)
                else o.after == c && o.core == core)
            && (o.after == c || o.after.rec.version == c.rec.version + 1)
  {
    if seen.rec.version != c.rec.version {
      LosersChangeNothing(s, seen, c, core, job, env);
    } else if Attempt(s, c, core, job, env).after != c {
      AttemptAppends(s, c, core, job, env);
    }
  }

  lemma StepIsSerial(s: Setup, sys: System, t: Tick)
    requires FreshMeansCurrent(sys)
    ensures FreshMeansCurrent(Step(s, sys, t))
    ensures Step(s, sys, t).world
         == if AsAction(sys, t) == [] then sys.world else Act(s, sys.world, AsAction(sys, t)[0])
  {
    if t.Finish? && t.request in sys.inFlight {
      var p, w := sys.inFlight[t.request], sys.world;
      FinishIsAnAttempt(s, p.seen, w.cases[p.id], w.core, p.job, t.env);
      assert w.cases[p.id := w.cases[p.id]] == w.cases;
    }
  }

  /** Every interleaving leaves the world as its winners would have, running one at a time. */
  lemma {:induction false} InterleavingsAreSerial(s: Setup, w: World, ticks: seq<Tick>)
    ensures FreshMeansCurrent(Schedule(s, System(w, map[]), ticks))
    ensures Schedule(s, System(w, map[]), ticks).world == Run(s, w, Winners(s, System(w, map[]), ticks))
  {
    if ticks != [] {
      var sys, front, t := System(w, map[]), ticks[..|ticks| - 1], ticks[|ticks| - 1];
      InterleavingsAreSerial(s, w, front);
      var before, won := Schedule(s, sys, front), Winners(s, sys, front);
      StepIsSerial(s, before, t);
      var last := AsAction(before, t);
      if last == [] {
        assert won + last == won;
      } else {
        assert last == [last[0]] && (won + last)[..|won|] == won;
      }
    }
  }

  /**
   * Under every interleaving all that holds of runs holds: each log is gapless, connected and replays to its record,
   * ledgers and clocks are as their states say, and the core has moved money at most once for a reference.
   */
  lemma EveryInterleavingIsSound(s: Setup, ticks: seq<Tick>)
    requires WellFormedTable(s.rules)
    ensures var w := Schedule(s, System(EMPTY_WORLD, map[]), ticks).world;
            && WorldInv(s, w)
            && (forall i, j | 0 <= i < j < |w.core.moved| :: w.core.moved[i].reference != w.core.moved[j].reference)
            && forall id | id in w.cases ::
                 var c := w.cases[id];
                 && |c.events| == c.rec.version
                 && (forall i | 0 <= i < |c.events| :: c.events[i].number == i + 1)
                 && (forall i | 1 <= i < |c.events| :: c.events[i].from == Some(c.events[i - 1].target))
                 && Replay(s.rules, c.rec.regime, c.events) == Ok(Dispute(c.rec.regime, c.rec.state, c.rec.appeals))
  {
    var sys := System(EMPTY_WORLD, map[]);
    InterleavingsAreSerial(s, EMPTY_WORLD, ticks);
    EveryRunIsSound(s, Winners(s, sys, ticks));
    var w := Schedule(s, sys, ticks).world;
    forall i, j | 0 <= i < j < |w.core.moved| ensures w.core.moved[i].reference != w.core.moved[j].reference {
      MoneyMovesAtMostOnce(s.rrn, w.core, i, j);
    }
  }

  /**
   * With a connected core and references told apart, each customer posting committed under any interleaving was paid
   * under its own reference.
   */
  lemma EveryInterleavingIsPaid(s: Setup, ticks: seq<Tick>)
    requires WellFormedTable(s.rules) && ToldApart(s, Winners(s, System(EMPTY_WORLD, map[]), ticks))
    requires forall t | t in ticks && t.Finish? :: t.env.core.Connected?
    ensures PaidWorld(Schedule(s, System(EMPTY_WORLD, map[]), ticks).world)
  {
    var sys := System(EMPTY_WORLD, map[]);
    InterleavingsAreSerial(s, EMPTY_WORLD, ticks);
    WinnersAreConnected(s, sys, ticks);
    EveryPostingIsPaid(s, Winners(s, sys, ticks));
  }

  lemma {:induction false} WinnersAreConnected(s: Setup, sys: System, ticks: seq<Tick>)
    requires forall t | t in ticks && t.Finish? :: t.env.core.Connected?
    ensures ConnectedRun(Winners(s, sys, ticks))
  {
    if ticks != [] {
      WinnersAreConnected(s, sys, ticks[..|ticks| - 1]);
      assert ticks[|ticks| - 1] in ticks;
    }
  }
}
