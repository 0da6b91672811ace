/** The use cases, step by step against the store and the core (application/service.go, routing.go). */
module Service {
  import opened Prelude
  import opened Regimes
  import opened Lifecycle
  import opened Deadlines
  import opened Ledger
  import opened Risk
  import opened BankingCore
  import opened Cases
  import opened Idempotency
  import opened Transfers
  import opened Store
  import opened StoreEffects

  class Service {
    const store: MemStore
    const core: Core
    const rules: RulesTable

    constructor (store: MemStore, core: Core, rules: RulesTable)
      ensures this.store == store && this.core == core && this.rules == rules
    {
      this.store, this.core, this.rules := store, core, rules;
    }

    ghost function Deployment(): Setup { Setup(rules, core.rrn) }

    /** Settles each open clock as the state entered demands, and after an appeal adds the clock it restarts. */
    method SettleDeadlines(caller: Caller, id: Id, r: Rules, before: nat, next: Dispute, env: Env) returns (x: Check<Error>)
      requires store.Valid() && Finds(store.Rows(), caller, id)
      modifies store, store.Backing()
      ensures store.Valid() && fresh(store.Backing() - old(store.Backing()))
      ensures x.Pass? && Finds(store.Rows(), caller, id)
      ensures var c := CaseOf(old(store.Rows()), id);
              Becomes(old(store.Rows()), store.Rows(), id, c.(deadlines := Clocked(r, c.deadlines, before, next, env)))
    {
      SettleOpen(caller, id, next.state, env.now);
      ghost var mid, counter := store.Rows(), store.nextNotice;
      x := Pass;
      if next.appeals > before {
        var restarted := StartAppeal(r.clocks, next.appeals, env.now, env.calendar);
        x := store.InsertDeadlines(caller, id, restarted);
        InsertingTouchesOnlyClocks(mid, counter, caller, id, restarted);
      } else {
        assert CaseOf(mid, id).deadlines + [] == CaseOf(mid, id).deadlines;
      }
    }

    /** The loop over the dispute's open clocks. */
    method SettleOpen(caller: Caller, id: Id, entered: State, now: int)
      requires store.Valid() && Finds(store.Rows(), caller, id)
      modifies store.Backing()
      ensures store.Valid() && store.Backing() == old(store.Backing()) && Finds(store.Rows(), caller, id)
      ensures var c := CaseOf(old(store.Rows()), id);
              Becomes(old(store.Rows()), store.Rows(), id, c.(deadlines := SettleAll(c.deadlines, entered, now)))
    {
      ghost var was := store.Rows();
      var open := if id in store.deadlines then store.deadlines[id][..] else [];
      for i := 0 to |open|
        invariant store.Valid() && Finds(store.Rows(), caller, id)
        invariant store.Backing() == old(store.Backing())
        invariant Becomes(was, store.Rows(), id, CaseOf(was, id).(deadlines := CaseOf(store.Rows(), id).deadlines))
        invariant PartlySettled(open, CaseOf(store.Rows(), id).deadlines, i, entered, now)
      {
        OneTurnSettlesOneMore(open, CaseOf(store.Rows(), id).deadlines, i, entered, now);
        SettleTurn(caller, id, open[i], entered, now);
      }
      assert CaseOf(store.Rows(), id).deadlines == SettleAll(open, entered, now);
    }

    /** One turn of the loop above. */
    method SettleTurn(caller: Caller, id: Id, d: Deadline, entered: State, now: int)
      requires store.Valid() && Finds(store.Rows(), caller, id)
      modifies store.Backing()
      ensures store.Valid() && store.Backing() == old(store.Backing())
      ensures Finds(store.Rows(), caller, id)
      ensures var c := CaseOf(old(store.Rows()), id);
              Becomes(old(store.Rows()), store.Rows(), id,
                      c.(deadlines := Deadlines.SettleTurn(d, c.deadlines, entered, now)))
    {
      ghost var was, counter := store.Rows(), store.nextNotice;
      if d.Open() {
        match Settle(d.kind, entered)
        case Meets =>
          var _ := store.SettleDeadline(caller, id, d.kind, d.cycle, true, now);
          SettlingTouchesOnlyClocks(was, counter, caller, id, d.kind, d.cycle, true, now);
        case Voids =>
          var _ := store.SettleDeadline(caller, id, d.kind, d.cycle, false, now);
          SettlingTouchesOnlyClocks(was, counter, caller, id, d.kind, d.cycle, false, now);
        case Untouched =>
      }
    }

    /** Asks the core to move the money; a decline or a silence refuses the transition. */
    method InstructCore(rec: DisputeRecord, number: nat, p: Posting, env: Env) returns (x: Result<Receipt, Error>)
      modifies core
      ensures var (after, answer) := Instruct(core.rrn, old(core.State()), env.core, InstructionFor(rec, number, p));
              && core.State() == after
              && x == if answer.Ok? && !answer.value.approved then Err(CoreDeclined) else answer
    {
      x := core.Post(env.core, Instruction(Reference(rec.id, number, p.kind), rec.account, p.credit == Customer, p.amount));
      if x.Ok? && !x.value.approved {
        x := Err(CoreDeclined);
      }
    }

    /** Books each movement; only those on the customer's account leave the building. */
    method BookMovements(rec: DisputeRecord, number: nat, movements: seq<Posting>, env: Env)
      returns (x: Result<seq<LedgerEntry>, Error>)
      modifies core
      ensures (core.State(), x) == BookAll(Deployment(), old(core.State()), rec, number, movements, env)
    {
      var entries: seq<LedgerEntry> := [];
      for i := 0 to |movements|
        invariant (core.State(), Ok(entries)) == BookAll(Deployment(), old(core.State()), rec, number, movements[..i], env)
      {
        assert movements[..i + 1][..i] == movements[..i];
        var p := movements[i];
        var entry := LedgerEntry(number, p, Reference(rec.id, number, p.kind), env.now, None);
        if p.debit == Customer || p.credit == Customer {
          var receipt := InstructCore(rec, number, p, env);
          if receipt.Err? {
            BookingStops(Deployment(), old(core.State()), rec, number, movements, env, i + 1);
            return Err(receipt.error);
          }
          entry := entry.(core := Some(receipt.value));
        }
        entries := entries + [entry];
      }
      assert movements[..|movements|] == movements;
      x := Ok(entries);
    }

    /** Validates the analyst's amounts against the regime, before anything is posted. */
    method ReadFacts(id: Id, r: Rules, payload: Payload) returns (x: Result<PostingInput, Error>)
      requires id in store.disputes
      ensures x == Input(r, CaseOf(store.Rows(), id), store.disputes[id].state, payload)
      ensures x.Ok? <==> AcceptableSettlement(payload)
                         && AcceptableLiability(r, store.disputes[id].disputedAmount, payload)
      ensures x.Ok? ==> (x.value.settlement == Recovered <==>
                           payload.settlement == "RECOVERED" || (payload.settlement == "" && r.closeSettlement == Recovered))
    {
      var rec := store.disputes[id];
      if !payload.Facts? {
        return Err(MalformedRequest);
      }
      var liability := Liability(r, rec.disputedAmount, payload.liability);
      if liability.Err? {
        return Err(liability.error);
      }
      var settlement := ParseSettlement(r, payload.settlement);
      if settlement.Err? {
        return Err(settlement.error);
      }
      var outstanding := SumSuspense(PostingsOf(RowsOf(store.ledger, id)));
      x := Ok(PostingInput(rec.state, rec.disputedAmount, rec.currency, liability.value, outstanding, settlement.value));
    }

    /** Writes the movements the new state causes. */
    method Post(caller: Caller, id: Id, r: Rules, payload: Payload, env: Env) returns (x: Check<Error>)
      requires store.Valid() && Finds(store.Rows(), caller, id)
      modifies store, core
      ensures store.Valid() && store.Backing() == old(store.Backing())
      ensures var c := CaseOf(old(store.Rows()), id);
              var (after, posted) := PostLedger(Deployment(), r, c, old(core.State()), payload, env);
              && core.State() == after
              && x == (if posted.Ok? then Pass else Fail(posted.error))
              && (x.Pass? ==> Finds(store.Rows(), caller, id)
                              && Becomes(old(store.Rows()), store.Rows(), id, c.(ledger := c.ledger + posted.value)))
      ensures x.Pass? ==> ClearedIfClosed(r, old(store.disputes)[id].state, PostingsOf(RowsOf(old(store.ledger), id)),
                                          PostingsOf(RowsOf(store.ledger, id)), payload)
    {
      ghost var was, counter := store.Rows(), store.nextNotice;
      var input := ReadFacts(id, r, payload);
      if input.Err? {
        return Fail(input.error);
      }
      var have, rec := RowsOf(store.ledger, id), store.disputes[id];
      var movements := Postings(r, input.value);
      if movements == [] {
        assert have + [] == have;
        PostingTheCloseClears(Deployment(), r, CaseOf(was, id), old(core.State()), payload, env);
        return Pass;
      }
      var entries := BookMovements(rec, rec.version, movements, env);
      if entries.Err? {
        return Fail(entries.error);
      }
      BookedEachMovement(Deployment(), old(core.State()), rec, rec.version, movements, env);
      x := store.AppendLedger(caller, id, entries.value);
      LedgerIsAppended(was, counter, caller, id, entries.value);
      if x.Pass? {
        AppendedAll(have, entries.value);
        PostingTheCloseClears(Deployment(), r, CaseOf(was, id), old(core.State()), payload, env);
      }
    }

    /** Sends the reason's questions, or records the customer's answers. */
    method AskOrAnswer(caller: Caller, id: Id, req: Request, now: int) returns (x: Check<Error>)
      requires store.Valid() && Finds(store.Rows(), caller, id)
      modifies store
      ensures store.Valid() && store.Backing() == old(store.Backing())
      ensures var c := CaseOf(old(store.Rows()), id);
              var asked := Questioned(c.questionnaire, req, now);
              && x == (if asked.Ok? then Pass else Fail(asked.error))
              && (x.Pass? ==> Finds(store.Rows(), caller, id)
                              && Becomes(old(store.Rows()), store.Rows(), id, c.(questionnaire := asked.value)))
    {
      ghost var was, counter := store.Rows(), store.nextNotice;
      match req.event
      case SendQuestionnaire =>
        x := store.SendQuestionnaire(caller, id, now);
        QuestionnaireIsSent(was, counter, caller, id, now);
      case ReceiveQuestionnaire =>
        if !req.payload.Facts? {
          return Fail(MalformedRequest);
        } else if id !in store.questions {
          return Fail(NotFound);
        } else if !req.payload.answers.valid {
          return Fail(InvalidAnswers);
        }
        x := store.AnswerQuestionnaire(caller, id, req.payload.answers);
        QuestionnaireIsAnswered(was, counter, caller, id, req.payload.answers);
      case _ =>
        x := Pass;
    }

    /** Advances the record under its version, appends the log entry, and settles what the new state settles. */
    method RecordEvent(caller: Caller, id: Id, r: Rules, next: Dispute, req: Request, env: Env) returns (x: Check<Error>)
      requires store.Valid() && Finds(store.Rows(), caller, id)
      modifies store, store.Backing()
      ensures store.Valid() && fresh(store.Backing() - old(store.Backing()))
      ensures var c := CaseOf(old(store.Rows()), id);
              var recorded := Record(r, c, c, next, req, env);
              && x == (if recorded.Ok? then Pass else Fail(recorded.error))
              && (x.Pass? ==> Finds(store.Rows(), caller, id)
                              && Becomes(old(store.Rows()), store.Rows(), id, recorded.value))
    {
      ghost var was := store.Rows();
      var before := store.disputes[id].appeals;
      x := LogEvent(caller, id, next, req, env);
      if x.Fail? {
        return;
      }
      x := AskOrAnswer(caller, id, req, env.now);
      if x.Fail? {
        return;
      }
      x := SettleDeadlines(caller, id, r, before, next, env);
    }

    method LogEvent(caller: Caller, id: Id, next: Dispute, req: Request, env: Env) returns (x: Check<Error>)
      requires store.Valid() && Finds(store.Rows(), caller, id)
      modifies store
      ensures store.Valid() && store.Backing() == old(store.Backing())
      ensures var c := CaseOf(old(store.Rows()), id);
              var number := c.rec.version + 1;
              && x == (if req.payload == NotAnObject then Fail(MalformedRequest)
                       else if NumberTaken(c.events, number) then Fail(Conflict) else Pass)
              && (x.Pass? ==> Finds(store.Rows(), caller, id) && Becomes(old(store.Rows()), store.Rows(), id, c.(
                    rec := c.rec.(state := next.state, appeals := next.appeals, version := number, updatedAt := env.now),
                    events := c.events + [EventRecord(number, Lifecycled(req.event), Some(c.rec.state), next.state,
                                                      req.payload, env.who.id, env.now)])))
    {
      ghost var was, counter := store.Rows(), store.nextNotice;
      var rec := store.disputes[id];
      x := store.UpdateDisputeState(caller, id, rec.version, next.state, next.appeals, env.now);
      if req.payload == NotAnObject {
        return Fail(MalformedRequest);
      }
      var e := EventRecord(rec.version + 1, Lifecycled(req.event), Some(rec.state), next.state, req.payload, env.who.id, env.now);
      x := store.AppendEvent(caller, id, e);
      StateMovesAndLogGrows(was, counter, caller, id, next.state, next.appeals, env.now, e);
    }

    /** The rows a view is rendered from. */
    method ReadCase(id: Id) returns (c: Case)
      requires id in store.disputes
      ensures c == CaseOf(store.Rows(), id)
    {
      c := Case(store.disputes[id], RowsOf(store.events, id),
                if id in store.deadlines then store.deadlines[id][..] else [],
                RowsOf(store.ledger, id),
                if id in store.questions then Some(store.questions[id]) else None,
                RowsOf(store.risk, id));
    }

    /** ApplyEvent inside its transaction, before anything is rolled back. */
    method ApplyEventTx(caller: Caller, id: Id, req: Request, env: Env) returns (x: Result<Case, Error>)
      requires store.Valid()
      modifies store, store.Backing(), core
      ensures store.Valid() && fresh(store.Backing() - old(store.Backing()))
      ensures store.idempotent == old(store.idempotent) || x.Err?
      ensures Transacted(Deployment(), caller, id, Dispatch(req), env, old(store.Rows()), old(core.State()),
                         x, store.Rows(), core.State())
      ensures var refusal := Refusal(caller, RecordOf(old(store.disputes), id), env);
              refusal.Some? ==> x == Err(refusal.value) && core.State() == old(core.State())
    {
      if id !in store.disputes || !Visible(caller, store.disputes[id]) {
        return Err(NotFound);
      }
      var c := ReadCase(id);
      if !env.authorised {
        return Err(Forbidden);
      }
      var next := Apply(rules, c.rec.Lifecycle(), req.event);
      if next.Err? {
        return Err(next.error);
      }
      if req.event == IssueRefund {
        var held := HoldCheck(c.risk, req.payload);
        if held.Fail? {
          return Err(held.error);
        }
      }
      x := WriteEvent(caller, id, next.value, req, env);
    }

    /** Everything from the version check on. */
    method WriteEvent(caller: Caller, id: Id, next: Dispute, req: Request, env: Env) returns (x: Result<Case, Error>)
      requires store.Valid() && Finds(store.Rows(), caller, id) && store.disputes[id].regime in rules
      modifies store, store.Backing(), core
      ensures store.Valid() && fresh(store.Backing() - old(store.Backing()))
      ensures var c := CaseOf(old(store.Rows()), id);
              var o := CommitFresh(Deployment(), c, c, old(core.State()), next, req, env);
              && core.State() == o.core
              && x == (if o.result.Pass? then Ok(o.after) else Err(o.result.error))
              && (x.Ok? ==> Becomes(old(store.Rows()), store.Rows(), id, o.after))
    {
      ghost var was := store.Rows();
      var r := rules[store.disputes[id].regime];
      var done := RecordEvent(caller, id, r, next, req, env);
      if done.Fail? {
        return Err(done.error);
      }
      x := SettleMoney(caller, id, r, req, env);
    }

    /** The money, and then everything that can no longer involve the core. */
    method SettleMoney(caller: Caller, id: Id, r: Rules, req: Request, env: Env) returns (x: Result<Case, Error>)
      requires store.Valid() && Finds(store.Rows(), caller, id)
      modifies store, core
      ensures store.Valid() && store.Backing() == old(store.Backing())
      ensures var (after, settled) := Settled(Deployment(), r, CaseOf(old(store.Rows()), id), old(core.State()), req, env);
              && core.State() == after && x == settled
              && (x.Ok? ==> Becomes(old(store.Rows()), store.Rows(), id, x.value))
    {
      ghost var was := store.Rows();
      var done := Post(caller, id, r, req.payload, env);
      if done.Fail? {
        return Err(done.error);
      }
      if !env.restSucceeds {
        return Err(Internal);
      }
      Rescore(caller, id, req.event, env);
      var view := ReadCase(id);
      x := Ok(view);
    }

    /** A received questionnaire is scored again. */
    method Rescore(caller: Caller, id: Id, e: Event, env: Env)
      requires store.Valid() && Finds(store.Rows(), caller, id)
      modifies store
      ensures store.Valid() && store.Backing() == old(store.Backing())
      ensures var c := CaseOf(old(store.Rows()), id);
              Becomes(old(store.Rows()), store.Rows(), id, c.(risk := Rescored(c, e, env)))
    {
      ghost var was, counter := store.Rows(), store.nextNotice;
      if e == ReceiveQuestionnaire {
        var c := ReadCase(id);
        var assessment := Score(RiskOf(c.rec, c.questionnaire, env.history));
        var record := RiskRecord(c.rec.version, assessment, env.now);
        var _ := store.InsertRisk(caller, id, record);
        RiskIsAppended(was, counter, caller, id, record);
      }
    }

    /** What the key alone decides, before the write is tried. */
    method ConsultKey(t: Ticket) returns (v: Verdict<Case>)
      ensures v == Consult(store.idempotent, t)
    {
      if t.key == "" {
        return Proceed;
      }
      var slot := Slot(t.tenant, t.scope, t.key);
      if slot in store.idempotent {
        var stored := store.idempotent[slot];
        return if stored.hash != t.hash then Refuse else Replay(stored.view);
      }
      if t.scope != t.bareScope && Slot(t.tenant, t.bareScope, t.key) in store.idempotent {
        return Refuse;
      }
      return Proceed;
    }

    /** Keeps the answer for replay, as the transaction's last write. */
    method KeepAnswer(caller: Caller, t: Ticket, view: Case)
      requires store.Valid() && t.tenant == caller.tenant
      modifies store
      ensures store.Valid() && store.Backing() == old(store.Backing())
      ensures store.idempotent == if t.key == "" then old(store.idempotent)
                                  else old(store.idempotent)[SlotOf(t) := Stored(t.hash, view)]
      ensures store.Rows() == old(store.Rows()).(idempotent := store.idempotent)
    {
      if t.key != "" {
        var _ := store.PutIdempotent(caller, t.scope, t.key, Stored(t.hash, view));
      }
    }

    /** The keyed transaction of ApplyEvent: the key is consulted, the event written and the answer kept, all inside it. */
    method KeyedEvent(caller: Caller, id: Id, req: Request, env: Env, t: Ticket)
      returns (x: Result<Answer<Case>, Error>, ghost r: Result<Case, Error>, ghost written: Tables)
      requires store.Valid() && t.tenant == caller.tenant
      modifies store, store.Backing(), core
      ensures store.Valid() && fresh(store.Backing() - old(store.Backing()))
      ensures Keyed(t, old(store.Rows()), old(core.State()), r, written, x, store.Rows(), core.State())
      ensures Consult(old(store.idempotent), t).Proceed? ==>
                Transacted(Deployment(), caller, id, Dispatch(req), env, old(store.Rows()), old(core.State()),
                           r, written, core.State())
    {
      r, written := Err(IdempotencyReuse), store.Rows();
      var verdict := ConsultKey(t);
      match verdict
      case Replay(view) => x := Ok(Answer(view, true));
      case Refuse => x := Err(IdempotencyReuse);
      case Proceed =>
        var view := ApplyEventTx(caller, id, req, env);
        r, written := view, store.Rows();
        if view.Err? {
          return Err(view.error), r, written;
        }
        KeepAnswer(caller, t, view.value);
        x := Ok(Answer(view.value, false));
    }

    /**
     * Runs the state machine and, if it accepts, commits the event; a repeated key is answered from its first
     * answer, and a refusal leaves the store as it was and at most a movement at the core.
     */
    method ApplyEvent(caller: Caller, id: Id, req: Request, env: Env, t: Ticket) returns (x: Result<Answer<Case>, Error>)
      requires store.Valid() && t.tenant == caller.tenant
      modifies store, store.Backing(), core
      ensures store.Valid() && fresh(store.Backing() - old(store.Backing()))
      ensures x.Err? ==> store.Rows() == old(store.Rows())
      ensures var s := Deployment();
              var before := Memory(old(store.idempotent), WorldOf(old(store.Rows()), old(core.State())));
              (Memory(store.idempotent, WorldOf(store.Rows(), core.State())), x)
                == Guarded(before, t, w => AttemptWrite(s, caller, id, Dispatch(req), env, w))
      ensures var refusal := Refusal(caller, RecordOf(old(store.disputes), id), env);
              Consult(old(store.idempotent), t).Proceed? && refusal.Some? ==>
                x == Err(refusal.value) && core.State() == old(core.State())
    {
      ghost var s, was, core0 := Deployment(), store.Rows(), core.State();
      var snapshot := store.TakeSnapshot();
      assert Slices(snapshot.deadlines) !! store.Backing();
      ghost var r, written;
      label taken:
      x, r, written := KeyedEvent(caller, id, req, env, t);
      KeptAside@taken(snapshot);
      ghost var after := store.Rows();
      store.EndTx(snapshot, x.Ok?);
      if Consult(was.idempotent, t).Proceed? {
        TransactionIsTheWrite(s, caller, id, Dispatch(req), env, was, core0, r, written, core.State());
      }
      KeyedIsGuarded(t, was, core0, r, written, x, after, core.State(),
                     w => AttemptWrite(s, caller, id, Dispatch(req), env, w));
      if Refusal(caller, RecordOf(was.disputes, id), env).Some? {
        TheRefusedChangeNothing(s, caller, id, Dispatch(req), env, was, core0);
      }
    }

    /** CreateDispute inside its transaction. */
    method CreateDisputeTx(caller: Caller, input: OpenInput, env: Env) returns (x: Result<Case, Error>)
      requires store.Valid() && Unused(store.Rows(), input.id) && input.tenant == caller.tenant
      modifies store, store.Backing()
      ensures store.Valid() && fresh(store.Backing() - old(store.Backing()))
      ensures store.idempotent == old(store.idempotent) || x.Err?
      ensures x == Opening(Deployment(), caller, input, env)
      ensures x.Ok? ==> Begins(old(store.Rows()), store.Rows(), input.id, x.value)
    {
      if !env.authorised {
        return Err(Forbidden);
      }
      var rec := DisputeRecord(input.id, input.tenant, input.team, input.regime, input.reason, Initiated, 0, 1,
                               input.account, input.amount, input.currency, env.now, env.now);
      InsertOpened(caller, rec, env);
      if input.regime !in rules {
        return Err(UnknownRegime);
      }
      var started := StartClocks(caller, input.id, rules[input.regime], env);
      if started.Fail? {
        return Err(started.error);
      }
      if !env.restSucceeds {
        return Err(Internal);
      }
      Acknowledge(caller, input.id, env);
      x := Ok(NewCase(rules[input.regime], input, env));
    }

    /** The regime's clocks start now, in the tenant's calendar. */
    method StartClocks(caller: Caller, id: Id, r: Rules, env: Env) returns (x: Check<Error>)
      requires store.Valid() && id in store.disputes && CaseOf(store.Rows(), id).deadlines == []
      modifies store
      ensures store.Valid() && fresh(store.Backing() - old(store.Backing()))
      ensures store.idempotent == old(store.idempotent)
      ensures x == if Finds(old(store.Rows()), caller, id) then Pass else Fail(NotFound)
      ensures x.Pass? ==>
        && Finds(store.Rows(), caller, id)
        && Becomes(old(store.Rows()), store.Rows(), id,
                   CaseOf(old(store.Rows()), id).(deadlines := OpeningDeadlines(r.clocks, env.now, env.calendar)))
    {
      ghost var was, counter := store.Rows(), store.nextNotice;
      var clocks := StartOpening(r.clocks, env.now, env.calendar);
      assert CaseOf(was, id).deadlines + clocks == clocks;
      InsertingTouchesOnlyClocks(was, counter, caller, id, clocks);
      x := store.InsertDeadlines(caller, id, clocks);
    }

    /** The record and the log's first entry. */
    method InsertOpened(caller: Caller, rec: DisputeRecord, env: Env)
      requires store.Valid() && Unused(store.Rows(), rec.id) && rec.tenant == caller.tenant
      modifies store
      ensures store.Valid() && store.Backing() == old(store.Backing())
      ensures Finds(store.Rows(), caller, rec.id) <==> Visible(caller, rec)
      ensures Begins(old(store.Rows()), store.Rows(), rec.id,
                     Case(rec, [EventRecord(1, Opened, None, Initiated, NO_FACTS, env.who.id, env.now)], [], [], None, []))
    {
      ghost var was, counter := store.Rows(), store.nextNotice;
      var e := EventRecord(1, Opened, None, Initiated, NO_FACTS, env.who.id, env.now);
      var _ := store.InsertDispute(caller, rec);
      InsertingBegins(was, counter, caller, rec);
      ghost var inserted := store.Rows();
      var _ := store.AppendEvent(caller, rec.id, e);
      LogGrows(inserted, counter, caller, rec.id, e);
      assert [] + [e] == [e];
    }

    /** The acknowledgement goes out, which meets its clock, and the dispute is scored. */
    method Acknowledge(caller: Caller, id: Id, env: Env)
      requires store.Valid() && Finds(store.Rows(), caller, id)
      requires CaseOf(store.Rows(), id).risk == [] && CaseOf(store.Rows(), id).questionnaire == None
      modifies store, store.Backing()
      ensures store.Valid() && store.Backing() == old(store.Backing())
      ensures var c := CaseOf(old(store.Rows()), id);
              Becomes(old(store.Rows()), store.Rows(), id, c.(
                deadlines := Acknowledged(c.deadlines, env.now),
                risk := [RiskRecord(1, Assess(RiskOf(c.rec, None, env.history)), env.now)]))
    {
      ghost var was, counter := store.Rows(), store.nextNotice;
      var _ := store.SettleDeadline(caller, id, AcknowledgeClock, 0, true, env.now);
      SettlingTouchesOnlyClocks(was, counter, caller, id, AcknowledgeClock, 0, true, env.now);
      ghost var settled := store.Rows();
      var assessment := Score(RiskOf(store.disputes[id], None, env.history));
      var record := RiskRecord(1, assessment, env.now);
      var _ := store.InsertRisk(caller, id, record);
      RiskIsAppended(settled, counter, caller, id, record);
      assert [] + [record] == [record];
    }

    /** The keyed transaction of CreateDispute. */
    method KeyedOpening(caller: Caller, input: OpenInput, env: Env, t: Ticket)
      returns (x: Result<Answer<Case>, Error>, ghost r: Result<Case, Error>, ghost written: Tables)
      requires store.Valid() && Unused(store.Rows(), input.id)
      requires t.tenant == caller.tenant == input.tenant
      modifies store, store.Backing()
      ensures store.Valid() && fresh(store.Backing() - old(store.Backing()))
      ensures Keyed(t, old(store.Rows()), core.State(), r, written, x, store.Rows(), core.State())
      ensures Consult(old(store.idempotent), t).Proceed? ==>
                && r == Opening(Deployment(), caller, input, env)
                && (r.Ok? ==> Begins(old(store.Rows()), written, input.id, r.value))
    {
      r, written := Err(IdempotencyReuse), store.Rows();
      var verdict := ConsultKey(t);
      match verdict
      case Replay(view) => x := Ok(Answer(view, true));
      case Refuse => x := Err(IdempotencyReuse);
      case Proceed =>
        var view := CreateDisputeTx(caller, input, env);
        r, written := view, store.Rows();
        if view.Err? {
          return Err(view.error), r, written;
        }
        KeepAnswer(caller, t, view.value);
        x := Ok(Answer(view.value, false));
    }

    /** Opens a dispute under a fresh identifier and starts its clocks; a repeated key is answered from its first answer. */
    method CreateDispute(caller: Caller, input: OpenInput, env: Env, t: Ticket) returns (x: Result<Answer<Case>, Error>)
      requires store.Valid() && Unused(store.Rows(), input.id)
      requires t.tenant == caller.tenant == input.tenant
      modifies store, store.Backing()
      ensures store.Valid() && fresh(store.Backing() - old(store.Backing()))
      ensures x.Err? ==> store.Rows() == old(store.Rows())
      ensures var s := Deployment();
              var before := Memory(old(store.idempotent), WorldOf(old(store.Rows()), core.State()));
              (Memory(store.idempotent, WorldOf(store.Rows(), core.State())), x)
                == Guarded(before, t, w => OpenWrite(s, caller, input, env, w))
      ensures Consult(old(store.idempotent), t).Proceed? && !env.authorised ==> x == Err(Forbidden)
    {
      ghost var s, was := Deployment(), store.Rows();
      var snapshot := store.TakeSnapshot();
      assert Slices(snapshot.deadlines) !! store.Backing();
      ghost var r, written;
      label taken:
      x, r, written := KeyedOpening(caller, input, env, t);
      KeptAside@taken(snapshot);
      ghost var after := store.Rows();
      store.EndTx(snapshot, x.Ok?);
      if Consult(was.idempotent, t).Proceed? {
        OpeningIsTheWrite(s, caller, input, env, was, core.State(), r, written);
      }
      KeyedIsGuarded(t, was, core.State(), r, written, x, after, core.State(),
                     w => OpenWrite(s, caller, input, env, w));
    }

    /** Reassign inside its transaction. */
    method ReassignTx(caller: Caller, id: Id, team: string, env: Env) returns (x: Result<Case, Error>)
      requires store.Valid()
      modifies store
      ensures store.Valid() && store.Backing() == old(store.Backing())
      ensures store.idempotent == old(store.idempotent)
      ensures Transacted(Deployment(), caller, id, Move(team), env, old(store.Rows()), core.State(),
                         x, store.Rows(), core.State())
      ensures var refusal := Refusal(caller, RecordOf(old(store.disputes), id), env);
              refusal.Some? ==> x == Err(refusal.value)
    {
      if id !in store.disputes || !Visible(caller, store.disputes[id]) {
        return Err(NotFound);
      }
      var c := ReadCase(id);
      if !env.authorised {
        return Err(Forbidden);
      } else if team !in env.teams {
        return Err(UnknownTeam);
      } else if team == c.rec.team {
        return Ok(c);
      }
      var moved := MoveTeam(caller, id, team, env);
      if moved.Fail? {
        return Err(moved.error);
      }
      var view := ReadCase(id);
      x := Ok(view);
    }

    /** The log entry comes first: a caller who can no longer see the dispute could not add it. */
    method MoveTeam(caller: Caller, id: Id, team: string, env: Env) returns (x: Check<Error>)
      requires store.Valid() && Finds(store.Rows(), caller, id)
      modifies store
      ensures store.Valid() && store.Backing() == old(store.Backing()) && store.idempotent == old(store.idempotent)
      ensures var c := CaseOf(old(store.Rows()), id);
              var number := c.rec.version + 1;
              && x == (if NumberTaken(c.events, number) then Fail(Conflict) else Pass)
              && (x.Pass? ==> Becomes(old(store.Rows()), store.Rows(), id, c.(
                    rec := c.rec.(team := team, version := number, updatedAt := env.now),
                    events := c.events
                              + [EventRecord(number, Reassigned, Some(c.rec.state), c.rec.state, NO_FACTS,
                                              env.who.id, env.now)])))
    {
      ghost var was, counter := store.Rows(), store.nextNotice;
      var rec := store.disputes[id];
      var e := EventRecord(rec.version + 1, Reassigned, Some(rec.state), rec.state, NO_FACTS, env.who.id, env.now);
      x := store.AppendEvent(caller, id, e);
      if x.Fail? {
        return;
      }
      LogGrowsAndTeamMoves(was, counter, caller, id, e, team, env.now);
      x := store.UpdateDisputeTeam(caller, id, rec.version, team, env.now);
    }

    /** Moves a dispute to another team. */
    method Reassign(caller: Caller, id: Id, team: string, env: Env) returns (x: Check<Error>)
      requires store.Valid()
      modifies store, store.Backing()
      ensures store.Valid() && fresh(store.Backing() - old(store.Backing()))
      ensures store.idempotent == old(store.idempotent)
      ensures var (after, r) :=
                AttemptWrite(Deployment(), caller, id, Move(team), env, WorldOf(old(store.Rows()), core.State()));
              && WorldOf(store.Rows(), core.State()) == after
              && x == (if r.Ok? then Pass else Fail(r.error))
      ensures x.Fail? ==> store.Rows() == old(store.Rows())
      ensures var refusal := Refusal(caller, RecordOf(old(store.disputes), id), env);
              refusal.Some? ==> x == Fail(refusal.value)
    {
      ghost var was := store.Rows();
      var snapshot := store.TakeSnapshot();
      assert Slices(snapshot.deadlines) !! store.Backing();
      label taken:
      var r := ReassignTx(caller, id, team, env);
      KeptAside@taken(snapshot);
      ghost var written := store.Rows();
      store.EndTx(snapshot, r.Ok?);
      TransactionIsTheWrite(Deployment(), caller, id, Move(team), env, was, core.State(), r, written, core.State());
      if Refusal(caller, RecordOf(was.disputes, id), env).Some? {
        TheRefusedChangeNothing(Deployment(), caller, id, Move(team), env, was, core.State());
      }
      x := if r.Ok? then Pass else Fail(r.error);
    }
  }

  lemma {:induction false} BookedEachMovement(
    s: Setup, core: CoreState, rec: DisputeRecord, number: nat, ps: seq<Posting>, env: Env)
    requires BookAll(s, core, rec, number, ps, env).1.Ok?
    ensures |BookAll(s, core, rec, number, ps, env).1.value| == |ps|
  {
    if ps != [] {
      BookedEachMovement(s, core, rec, number, ps[..|ps| - 1], env);
    }
  }

  lemma {:induction false} BookingStops(
    s: Setup, core: CoreState, rec: DisputeRecord, number: nat, ps: seq<Posting>, env: Env, n: nat)
    requires n <= |ps| && BookAll(s, core, rec, number, ps[..n], env).1.Err?
    ensures BookAll(s, core, rec, number, ps, env) == BookAll(s, core, rec, number, ps[..n], env)
    decreases |ps|
  {
    if n < |ps| {
      var front := ps[..|ps| - 1];
      assert front[..n] == ps[..n];
      BookingStops(s, core, rec, number, front, env, n);
    } else {
      assert ps[..n] == ps;
    }
  }
}
