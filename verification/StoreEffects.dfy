/** What the store's operations do to one dispute's rows, and to the world those rows make up. */
module StoreEffects {
  import opened Prelude
  import opened Regimes
  import opened Lifecycle
  import opened Deadlines
  import opened BankingCore
  import opened Cases
  import opened Runs
  import opened Transfers
  import opened Guards
  import opened Idempotency
  import opened Store

  /** The world the store and the core together hold. */
  ghost function WorldOf(t: Tables, core: CoreState): World {
    World(map id | id in t.disputes :: CaseOf(t, id), core)
  }

  lemma BecomesInTheWorld(t: Tables, t': Tables, id: Id, c: Case, core: CoreState, core': CoreState)
    requires Becomes(t, t', id, c)
    ensures WorldOf(t', core') == World(WorldOf(t, core).cases[id := c], core')
  {
    forall other | other != id ensures other in t.disputes <==> other in t'.disputes
    {
      OtherCasesAreElsewhere(t, t', id, other);
    }
    forall other | other in t.disputes && other != id ensures CaseOf(t', other) == CaseOf(t, other)
    {
      OtherCasesAreElsewhere(t, t', id, other);
    }
  }

  lemma SettlingTouchesOnlyClocks(
    t: Tables, counter: nat, caller: Caller, id: Id, kind: DeadlineKind, cycle: nat, met: bool, at: int)
    requires Finds(t, caller, id)
    ensures var c := CaseOf(t, id);
            var done := Exec(t, counter, caller, Op.SettleDeadline(id, kind, cycle, met, at));
            && Finds(done.rows, caller, id)
            && Becomes(t, done.rows, id, c.(deadlines := StampMatching(c.deadlines, kind, cycle, met, at)))
  {
    if id !in t.deadlines {
      assert StampMatching([], kind, cycle, met, at) == [];
    }
  }

  lemma InsertingTouchesOnlyClocks(t: Tables, counter: nat, caller: Caller, id: Id, ds: seq<Deadline>)
    requires id in t.disputes
    ensures var c := CaseOf(t, id);
            var done := Exec(t, counter, caller, Op.InsertDeadlines(id, ds));
            && done.result == (if Finds(t, caller, id) then Pass else Fail(NotFound))
            && (done.result.Pass? ==>
                  Finds(done.rows, caller, id) && Becomes(t, done.rows, id, c.(deadlines := c.deadlines + ds)))
  {
  }

  lemma StateMoves(t: Tables, counter: nat, caller: Caller, id: Id, state: State, appeals: nat, at: int)
    requires Finds(t, caller, id)
    ensures var rec := t.disputes[id];
            var done := Exec(t, counter, caller, Op.UpdateDisputeState(id, rec.version, state, appeals, at));
            && done.result.Pass? && Finds(done.rows, caller, id)
            && Becomes(t, done.rows, id, CaseOf(t, id).(rec := rec.(
                 state := state, appeals := appeals, version := rec.version + 1, updatedAt := at)))
  {
  }

  lemma TeamMoves(t: Tables, counter: nat, caller: Caller, id: Id, expected: nat, team: string, at: int)
    requires Finds(t, caller, id)
    ensures var rec := t.disputes[id];
            var done := Exec(t, counter, caller, Op.UpdateDisputeTeam(id, expected, team, at));
            && (done.result.Pass? <==> expected == rec.version)
            && (done.result.Fail? ==> done.result == Fail(Conflict))
            && (done.result.Pass? ==> Becomes(t, done.rows, id, CaseOf(t, id).(rec := rec.(
                 team := team, version := expected + 1, updatedAt := at))))
  {
  }

  lemma LogGrows(t: Tables, counter: nat, caller: Caller, id: Id, e: EventRecord)
    requires id in t.disputes
    ensures var c := CaseOf(t, id);
            var done := Exec(t, counter, caller, Op.AppendEvent(id, e));
            && done.result == (if NumberTaken(c.events, e.number) then Fail(Conflict) else Pass)
            && (Finds(done.rows, caller, id) <==> Finds(t, caller, id))
            && (done.result.Pass? ==> Becomes(t, done.rows, id, c.(events := c.events + [e])))
  {
  }

  /** Advancing the record and appending the entry for it, one after the other. */
  lemma StateMovesAndLogGrows(
    t: Tables, counter: nat, caller: Caller, id: Id, state: State, appeals: nat, at: int, e: EventRecord)
    requires Finds(t, caller, id)
    ensures var c := CaseOf(t, id);
            var t' := Exec(t, counter, caller, Op.UpdateDisputeState(id, c.rec.version, state, appeals, at)).rows;
            var done := Exec(t', counter, caller, Op.AppendEvent(id, e));
            && done.result == (if NumberTaken(c.events, e.number) then Fail(Conflict) else Pass)
            && (done.result.Pass? ==> Finds(done.rows, caller, id) && Becomes(t, done.rows, id, c.(
                  rec := c.rec.(state := state, appeals := appeals, version := c.rec.version + 1, updatedAt := at),
                  events := c.events + [e])))
  {
    StateMoves(t, counter, caller, id, state, appeals, at);
    var rec := t.disputes[id];
    var t' := Exec(t, counter, caller, Op.UpdateDisputeState(id, rec.version, state, appeals, at)).rows;
    LogGrows(t', counter, caller, id, e);
  }

  /** Appending an entry and then moving the dispute, one after the other. */
  lemma LogGrowsAndTeamMoves(t: Tables, counter: nat, caller: Caller, id: Id, e: EventRecord, team: string, at: int)
    requires Finds(t, caller, id) && !NumberTaken(CaseOf(t, id).events, e.number)
    ensures var c := CaseOf(t, id);
            var t' := Exec(t, counter, caller, Op.AppendEvent(id, e)).rows;
            var done := Exec(t', counter, caller, Op.UpdateDisputeTeam(id, c.rec.version, team, at));
            && Exec(t, counter, caller, Op.AppendEvent(id, e)).result.Pass? && done.result.Pass?
            && Becomes(t, done.rows, id, c.(
                 rec := c.rec.(team := team, version := c.rec.version + 1, updatedAt := at), events := c.events + [e]))
  {
    LogGrows(t, counter, caller, id, e);
    var t' := Exec(t, counter, caller, Op.AppendEvent(id, e)).rows;
    TeamMoves(t', counter, caller, id, t.disputes[id].version, team, at);
  }

  lemma QuestionnaireIsSent(t: Tables, counter: nat, caller: Caller, id: Id, at: int)
    requires Finds(t, caller, id)
    ensures var done := Exec(t, counter, caller, Op.SendQuestionnaire(id, at));
            && done.result.Pass? && Finds(done.rows, caller, id)
            && Becomes(t, done.rows, id, CaseOf(t, id).(questionnaire := Some(Questionnaire(at, None))))
  {
  }

  lemma QuestionnaireIsAnswered(t: Tables, counter: nat, caller: Caller, id: Id, answers: Answers)
    requires Finds(t, caller, id)
    ensures var done, q := Exec(t, counter, caller, Op.AnswerQuestionnaire(id, answers)), CaseOf(t, id).questionnaire;
            && done.result == (if q.Some? && q.value.received.None? then Pass else Fail(NotFound))
            && Finds(done.rows, caller, id)
            && (done.result.Pass? ==>
                  Becomes(t, done.rows, id, CaseOf(t, id).(questionnaire := Some(q.value.(received := Some(answers))))))
  {
  }

  lemma LedgerIsAppended(t: Tables, counter: nat, caller: Caller, id: Id, entries: seq<LedgerEntry>)
    requires Finds(t, caller, id) && entries != []
    ensures var c := CaseOf(t, id);
            var done := Exec(t, counter, caller, Op.AppendLedger(id, entries));
            && done.result == (if Appended(c.ledger, entries).1 then Pass else Fail(Conflict))
            && Finds(done.rows, caller, id)
            && Becomes(t, done.rows, id, c.(ledger := Appended(c.ledger, entries).0))
  {
  }

  lemma {:induction false} AppendedAll(have: seq<LedgerEntry>, entries: seq<LedgerEntry>)
    requires Appended(have, entries).1
    ensures Appended(have, entries).0 == have + entries
  {
    if entries != [] {
      AppendedAll(have, entries[..|entries| - 1]);
    }
  }

  lemma RiskIsAppended(t: Tables, counter: nat, caller: Caller, id: Id, record: RiskRecord)
    requires Finds(t, caller, id)
    ensures var c := CaseOf(t, id);
            var done := Exec(t, counter, caller, Op.InsertRisk(id, record));
            && done.result.Pass? && Finds(done.rows, caller, id)
            && Becomes(t, done.rows, id, c.(risk := c.risk + [record]))
  {
  }

  // ---------------------------------------------------------------------------------------------------
  // The use cases as writes to the world

  /** What a caller's attempt does to the world: nothing to a dispute the caller cannot see. */
  function AttemptWrite(s: Setup, caller: Caller, id: Id, job: Job, env: Env, w: World): (World, Result<Case, Error>) {
    if id !in w.cases || !Visible(caller, w.cases[id].rec) then (w, Err(NotFound))
    else
      var o := Attempt(s, w.cases[id], w.core, job, env);
      (World(w.cases[id := o.after], o.core), if o.result.Pass? then Ok(o.after) else Err(o.result.error))
  }

  /** The answer to an opening: a dispute routed to a team the caller cannot see is not found when its clocks start. */
  function Opening(s: Setup, caller: Caller, input: OpenInput, env: Env): Result<Case, Error> {
    if !env.authorised then Err(Forbidden)
    else if input.regime !in s.rules then Err(UnknownRegime)
    else
      var c := NewCase(s.rules[input.regime], input, env);
      if !Visible(caller, c.rec) then Err(NotFound)
      else if !env.restSucceeds then Err(Internal)
      else Ok(c)
  }

  /** What opening a dispute does to the world. */
  function OpenWrite(s: Setup, caller: Caller, input: OpenInput, env: Env, w: World): (World, Result<Case, Error>) {
    var x := Opening(s, caller, input, env);
    (if x.Ok? then w.(cases := w.cases[input.id := x.value]) else w, x)
  }

  /**
   * Whom an attempt is refused before anything is looked at, in the fields of the caller and the record alone: nobody
   * outside the tenant, and no analyst outside the team, learns that there is such a dispute.
   */
  function Refusal(caller: Caller, rec: Option<DisputeRecord>, env: Env): Option<Error> {
    if rec.None? || rec.value.tenant != caller.tenant then Some(NotFound)
    else if caller.teams.Some? && rec.value.team !in caller.teams.value then Some(NotFound)
    else if !env.authorised then Some(Forbidden)
    else None
  }

  function RecordOf(disputes: map<Id, DisputeRecord>, id: Id): Option<DisputeRecord> {
    if id in disputes then Some(disputes[id]) else None
  }

  /** The refused change nothing, here or at the core. */
  lemma TheRefusedChangeNothing(s: Setup, caller: Caller, id: Id, job: Job, env: Env, t: Tables, core: CoreState)
    requires Refusal(caller, RecordOf(t.disputes, id), env).Some?
    ensures AttemptWrite(s, caller, id, job, env, WorldOf(t, core))
         == (WorldOf(t, core), Err(Refusal(caller, RecordOf(t.disputes, id), env).value))
  {
    if Finds(t, caller, id) {
      NothingUnauthorised(s, CaseOf(t, id), CaseOf(t, id), core, job, env);
      assert WorldOf(t, core).cases[id := CaseOf(t, id)] == WorldOf(t, core).cases;
    }
  }

  /** In any world a run can reach, a call goes through exactly for whom and for what it should. */
  lemma ACallCommitsIff(s: Setup, caller: Caller, id: Id, req: Request, env: Env, w: World)
    requires WorldInv(s, w)
    ensures AttemptWrite(s, caller, id, Dispatch(req), env, w).1.Ok?
       <==> && id in w.cases && Refusal(caller, Some(w.cases[id].rec), env).None?
            && Proceeds(s, w.cases[id], req, env) && env.restSucceeds
            && var ins := InstructionOf(s.rules[w.cases[id].rec.regime], w.cases[id], req);
               ins.Some? ==> Approves(s.rrn, w.core, env.core, ins.value)
  {
    if id in w.cases {
      AnEventCommitsIff(s, w.cases[id], w.core, req, env);
    }
  }

  /** Both are actions of a run, or nothing, so every theorem about runs is one about the service. */
  lemma WritesAreActions(s: Setup, caller: Caller, id: Id, job: Job, input: OpenInput, env: Env, w: World)
    ensures var after := AttemptWrite(s, caller, id, job, env, w).0; after == w || after == Act(s, w, On(id, job, env))
    ensures input.id !in w.cases ==>
      || OpenWrite(s, caller, input, env, w).0 == w
      || OpenWrite(s, caller, input, env, w).0 == Act(s, w, Begin(input, env))
  {
  }

  /** So every call of the service keeps what every run keeps; a key only decides whether the write happens. */
  lemma CallsKeepTheInvariant(
    s: Setup, caller: Caller, id: Id, job: Job, input: OpenInput, env: Env, w: World)
    requires WellFormedTable(s.rules) && WorldInv(s, w)
    ensures WorldInv(s, AttemptWrite(s, caller, id, job, env, w).0)
    ensures input.id !in w.cases ==> WorldInv(s, OpenWrite(s, caller, input, env, w).0)
  {
    WritesAreActions(s, caller, id, job, input, env, w);
    ActKeepsWorld(s, w, On(id, job, env));
    ActKeepsWorld(s, w, Begin(input, env));
  }

  /** What one transaction does to the rows, in terms of the dispute's case. */
  ghost predicate Transacted(
    s: Setup, caller: Caller, id: Id, job: Job, env: Env, t: Tables, core: CoreState,
    x: Result<Case, Error>, t': Tables, core': CoreState)
  {
    if !Finds(t, caller, id) then x == Err(NotFound) && core' == core
    else
      var o := Attempt(s, CaseOf(t, id), core, job, env);
      && core' == o.core
      && x == (if o.result.Pass? then Ok(o.after) else Err(o.result.error))
      && (x.Ok? ==> Becomes(t, t', id, o.after))
  }

  lemma RefusalKeepsCase(s: Setup, c: Case, core: CoreState, job: Job, env: Env)
    requires Attempt(s, c, core, job, env).result.Fail?
    ensures Attempt(s, c, core, job, env).after == c
  {
  }

  /** With its rows kept on success and put back on refusal, a transaction is the write to the world. */
  lemma TransactionIsTheWrite(
    s: Setup, caller: Caller, id: Id, job: Job, env: Env, t: Tables, core: CoreState,
    x: Result<Case, Error>, t': Tables, core': CoreState)
    requires Transacted(s, caller, id, job, env, t, core, x, t', core')
    ensures (WorldOf(if x.Ok? then t' else t, core'), x) == AttemptWrite(s, caller, id, job, env, WorldOf(t, core))
  {
    if Finds(t, caller, id) {
      var c := CaseOf(t, id);
      if x.Ok? {
        BecomesInTheWorld(t, t', id, x.value, core, core');
      } else {
        RefusalKeepsCase(s, c, core, job, env);
        RolledBackWorld(t, id, core, core');
      }
    }
  }

  lemma RolledBackWorld(t: Tables, id: Id, core: CoreState, core': CoreState)
    requires id in t.disputes
    ensures WorldOf(t, core') == World(WorldOf(t, core).cases[id := CaseOf(t, id)], core')
  {
  }

  lemma KeyedRowsAreTheSameWorld(t: Tables, t': Tables, core: CoreState)
    requires t' == t.(idempotent := t'.idempotent)
    ensures WorldOf(t', core) == WorldOf(t, core)
  {
  }

  /** What a keyed transaction does to the rows, given what the write inside it answered and left behind. */
  ghost predicate Keyed(t: Ticket, before: Tables, core: CoreState, r: Result<Case, Error>, written: Tables,
                        x: Result<Answer<Case>, Error>, after: Tables, core': CoreState)
  {
    match Consult(before.idempotent, t)
    case Replay(view) => x == Ok(Answer(view, true)) && after == before && core' == core
    case Refuse => x == Err(IdempotencyReuse) && after == before && core' == core
    case Proceed =>
      if r.Err? then x == Err(r.error)
      else
        && x == Ok(Answer(r.value, false))
        && after == written.(idempotent := if t.key == "" then before.idempotent
                                           else before.idempotent[SlotOf(t) := Stored(t.hash, r.value)])
  }

  /** With its rows kept on success and put back on refusal, a keyed transaction is the write guarded by the key. */
  lemma KeyedIsGuarded(t: Ticket, before: Tables, core: CoreState, r: Result<Case, Error>, written: Tables,
                       x: Result<Answer<Case>, Error>, after: Tables, core': CoreState,
                       write: World -> (World, Result<Case, Error>))
    requires Keyed(t, before, core, r, written, x, after, core')
    requires Consult(before.idempotent, t).Proceed? ==>
               (WorldOf(if r.Ok? then written else before, core'), r) == write(WorldOf(before, core))
    ensures var kept := if x.Ok? then after else before;
            (Memory(kept.idempotent, WorldOf(kept, core')), x)
              == Guarded(Memory(before.idempotent, WorldOf(before, core)), t, write)
  {
    if Consult(before.idempotent, t).Proceed? && r.Ok? {
      KeyedRowsAreTheSameWorld(written, after, core');
    }
  }

  /** No table has a row for an identifier that was just generated. */
  ghost predicate Unused(t: Tables, id: Id) {
    id !in t.disputes && id !in t.events && id !in t.deadlines && id !in t.ledger && id !in t.questions && id !in t.risk
  }

  /** A new dispute's rows have appeared, and nothing else has changed. */
  ghost predicate Begins(before: Tables, after: Tables, id: Id, c: Case) {
    && id in after.disputes && CaseOf(after, id) == c
    && Elsewhere(after, id) == Elsewhere(before, id)
  }

  lemma InsertingBegins(t: Tables, counter: nat, caller: Caller, rec: DisputeRecord)
    requires Unused(t, rec.id) && rec.tenant == caller.tenant
    ensures var done := Exec(t, counter, caller, Op.InsertDispute(rec));
            && Begins(t, done.rows, rec.id, Case(rec, [], [], [], None, []))
            && (Finds(done.rows, caller, rec.id) <==> Visible(caller, rec))
  {
  }

  lemma BeginsInTheWorld(t: Tables, t': Tables, id: Id, c: Case, core: CoreState)
    requires Begins(t, t', id, c)
    ensures WorldOf(t', core) == WorldOf(t, core).(cases := WorldOf(t, core).cases[id := c])
  {
    forall other | other != id ensures other in t.disputes <==> other in t'.disputes
    {
      OtherCasesAreElsewhere(t, t', id, other);
    }
    forall other | other in t.disputes && other != id ensures CaseOf(t', other) == CaseOf(t, other)
    {
      OtherCasesAreElsewhere(t, t', id, other);
    }
  }

  /** With its rows kept on success and put back on refusal, the transaction of an opening is the write to the world. */
  lemma OpeningIsTheWrite(s: Setup, caller: Caller, input: OpenInput, env: Env, t: Tables, core: CoreState,
                          x: Result<Case, Error>, t': Tables)
    requires x == Opening(s, caller, input, env) && (x.Ok? ==> Begins(t, t', input.id, x.value))
    ensures (WorldOf(if x.Ok? then t' else t, core), x) == OpenWrite(s, caller, input, env, WorldOf(t, core))
  {
    if x.Ok? {
      BeginsInTheWorld(t, t', input.id, x.value, core);
    }
  }
}
