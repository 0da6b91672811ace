/** Every run: any number of disputes sharing one banking core, attempts that fail anywhere, and retries. */
module Runs {
  import opened Prelude
  import opened Regimes
  import opened Ledger
  import opened BankingCore
  import opened Cases
  import opened Logs
  import opened LedgerRuns
  import opened ClockRuns
  import opened ScoreRuns
  import opened Causes

  datatype World = World(cases: map<Id, Case>, core: CoreState)

  /** Somebody opens a dispute, or attempts something on one. */
  datatype Action = Begin(input: OpenInput, env: Env) | On(id: Id, job: Job, env: Env)

  /** A new dispute's identifier is never one in use. */
  function Act(s: Setup, w: World, a: Action): World {
    match a
    case Begin(input, env) =>
      if input.id in w.cases || Open(s, input, env).Err? then w
      else w.(cases := w.cases[input.id := Open(s, input, env).value])
    case On(id, job, env) =>
      if id !in w.cases then w
      else
        var o := Attempt(s, w.cases[id], w.core, job, env);
        World(w.cases[id := o.after], o.core)
  }

  function Run(s: Setup, w: World, actions: seq<Action>): World {
    if actions == [] then w else Act(s, Run(s, w, actions[..|actions| - 1]), actions[|actions| - 1])
  }

  const EMPTY_WORLD := World(map[], EMPTY_CORE)

  // ---------------------------------------------------------------------------------------------------
  // What every reachable case satisfies

  ghost predicate CaseInv(s: Setup, c: Case) {
    LogInv(s, c) && LedgerInv(s, c) && ClockInv(s, c) && ScoreInv(c) && CauseInv(s, c)
  }

  ghost predicate WorldInv(s: Setup, w: World) {
    && (forall id | id in w.cases :: w.cases[id].rec.id == id && CaseInv(s, w.cases[id]))
    && Sound(s.rrn, w.core)
  }

  lemma OpeningEstablishesCase(s: Setup, input: OpenInput, env: Env)
    requires Open(s, input, env).Ok?
    ensures CaseInv(s, Open(s, input, env).value)
    ensures Open(s, input, env).value.rec.id == input.id
  {
    OpeningEstablishesLog(s, input, env);
    OpeningEstablishesLedger(s, input, env);
    OpeningEstablishesClocks(s, input, env);
    OpeningEstablishesScore(s, input, env);
    OpeningEstablishesCauses(s, input, env);
  }

  lemma AttemptKeepsCase(s: Setup, c: Case, core: CoreState, job: Job, env: Env)
    requires CaseInv(s, c) && WellFormedTable(s.rules)
    ensures CaseInv(s, Attempt(s, c, core, job, env).after)
    ensures Attempt(s, c, core, job, env).after.rec.id == c.rec.id
  {
    AttemptKeepsLog(s, c, core, job, env);
    AttemptKeepsLedger(s, c, core, job, env);
    AttemptKeepsClocks(s, c, core, job, env);
    AttemptKeepsScore(s, c, core, job, env);
    AttemptKeepsCauses(s, c, core, job, env);
  }

  lemma ActKeepsWorld(s: Setup, w: World, a: Action)
    requires WorldInv(s, w) && WellFormedTable(s.rules)
    ensures WorldInv(s, Act(s, w, a))
  {
    match a
    case Begin(input, env) =>
      if Open(s, input, env).Ok? {
        OpeningEstablishesCase(s, input, env);
        PuttingACaseKeepsWorld(s, w, input.id, Open(s, input, env).value, w.core);
      }
    case On(id, job, env) =>
      if id in w.cases {
        var o := Attempt(s, w.cases[id], w.core, job, env);
        AttemptKeepsCase(s, w.cases[id], w.core, job, env);
        AttemptKeepsSound(s, w.cases[id], w.core, job, env);
        PuttingACaseKeepsWorld(s, w, id, o.after, o.core);
      }
  }

  lemma PuttingACaseKeepsWorld(s: Setup, w: World, id: Id, c: Case, core: CoreState)
    requires WorldInv(s, w) && c.rec.id == id && CaseInv(s, c) && Sound(s.rrn, core)
    ensures WorldInv(s, World(w.cases[id := c], core))
  {
  }

  /** The invariant holds after every run, under any table of well-formed rows and any numbering of references. */
  lemma {:induction false} EveryRunIsSound(s: Setup, actions: seq<Action>)
    requires WellFormedTable(s.rules)
    ensures WorldInv(s, Run(s, EMPTY_WORLD, actions))
  {
    if actions != [] {
      var before := actions[..|actions| - 1];
      EveryRunIsSound(s, before);
      ActKeepsWorld(s, Run(s, EMPTY_WORLD, before), actions[|actions| - 1]);
    }
  }

  // ---------------------------------------------------------------------------------------------------
  // What an attempt does to the core

  /** The instruction that posting a recorded event sends, if any. */
  function CausedInstruction(r: Rules, mid: Case, p: Payload): Option<Instruction> {
    if Input(r, mid, mid.rec.state, p).Err? then None
    else
      var ps := PostingOf(r, mid, p);
      if |ps| == 0 || !ps[0].TouchesCustomer() then None
      else Some(InstructionFor(mid.rec, mid.rec.version, ps[0]))
  }

  /** The instruction an attempt sends, if it gets as far as sending one. */
  function Sent(s: Setup, c: Case, job: Job, env: Env): Option<Instruction> {
    if job.Move? || Decide(s, c, job.req, env).Err? || c.rec.regime !in s.rules then None
    else if Record(s.rules[c.rec.regime], c, c, Decide(s, c, job.req, env).value, job.req, env).Err? then None
    else CausedInstruction(s.rules[c.rec.regime], Midway(s, c, job.req, env), job.req.payload)
  }

  lemma OneMovementIsBooked(s: Setup, core: CoreState, rec: DisputeRecord, number: nat, ps: seq<Posting>, env: Env)
    requires |ps| == 1
    ensures BookAll(s, core, rec, number, ps, env).0 == Book(s, core, rec, number, ps[0], env).0
    ensures var booked := Book(s, core, rec, number, ps[0], env).1;
            BookAll(s, core, rec, number, ps, env).1
              == if booked.Ok? then Ok([booked.value]) else Err(booked.error)
  {
    assert ps[..0] == [];
    assert BookAll(s, core, rec, number, ps[..0], env) == (core, Ok([]));
    var booked := Book(s, core, rec, number, ps[0], env).1;
    assert booked.Ok? ==> [] + [booked.value] == [booked.value];
  }

  /** An attempt touches the core through that one instruction and in no other way. */
  lemma OnlyTheInstructionReachesTheCore(s: Setup, c: Case, core: CoreState, job: Job, env: Env)
    ensures Sent(s, c, job, env).None? ==> Attempt(s, c, core, job, env).core == core
    ensures Sent(s, c, job, env).Some? ==>
      Attempt(s, c, core, job, env).core == Instruct(s.rrn, core, env.core, Sent(s, c, job, env).value).0
  {
    if job.Dispatch? && Decide(s, c, job.req, env).Ok? && c.rec.regime in s.rules {
      var r := s.rules[c.rec.regime];
      var recorded := Record(r, c, c, Decide(s, c, job.req, env).value, job.req, env);
      if recorded.Ok? && Input(r, recorded.value, recorded.value.rec.state, job.req.payload).Ok? {
        var ps := PostingOf(r, recorded.value, job.req.payload);
        assert |ps| <= 1;
        if |ps| == 1 {
          OneMovementIsBooked(s, core, recorded.value.rec, recorded.value.rec.version, ps, env);
        }
      }
    }
  }

  lemma AttemptKeepsSound(s: Setup, c: Case, core: CoreState, job: Job, env: Env)
    requires Sound(s.rrn, core)
    ensures Sound(s.rrn, Attempt(s, c, core, job, env).core)
  {
    OnlyTheInstructionReachesTheCore(s, c, core, job, env);
    var ins := Sent(s, c, job, env);
    if ins.Some? {
      ExchangeKeepsSound(s.rrn, core, env.core, ins.value);
    }
  }
}
