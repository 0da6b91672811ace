/** The reference store: maps and slices updated in place, with snapshot and restore (apptest/memstore.go). */
module Store {
  import opened Prelude
  import opened Lifecycle
  import opened Regimes
  import opened Deadlines
  import opened BankingCore
  import opened Cases
  import opened Idempotency

  /** Whoever the transaction runs for: a tenant, and the analyst's teams unless it is a tenant key. */
  datatype Caller = Caller(tenant: nat, teams: Option<set<string>>)

  datatype Notice = Notice(id: nat, dispute: Id, event: nat, at: int)

  datatype Attachment = Attachment(dispute: Id, notice: Option<nat>)

  /** The rows a rollback brings back. */
  datatype Tables = Tables(
    disputes: map<Id, DisputeRecord>,
    events: map<Id, seq<EventRecord>>,
    idempotent: map<Slot, Stored<Case>>,
    deadlines: map<Id, seq<Deadline>>,
    ledger: map<Id, seq<LedgerEntry>>,
    questions: map<Id, Questionnaire>,
    notices: seq<Notice>,
    risk: map<Id, seq<RiskRecord>>,
    attachments: map<nat, Attachment>)

  /** Reading a key a map does not hold gives no rows. */
  function RowsOf<T>(m: map<Id, seq<T>>, id: Id): seq<T> {
    if id in m then m[id] else []
  }

  /** The rows of one dispute. */
  function CaseOf(t: Tables, id: Id): Case
    requires id in t.disputes
  {
    Case(t.disputes[id], RowsOf(t.events, id), RowsOf(t.deadlines, id), RowsOf(t.ledger, id),
         if id in t.questions then Some(t.questions[id]) else None, RowsOf(t.risk, id))
  }

  /** Everything but one dispute's rows. */
  function Elsewhere(t: Tables, id: Id): Tables {
    t.(disputes := t.disputes - {id}, events := t.events - {id}, deadlines := t.deadlines - {id},
       ledger := t.ledger - {id}, questions := t.questions - {id}, risk := t.risk - {id})
  }

  /** One dispute's rows have become those of a case, and nothing else has changed. */
  ghost predicate Becomes(before: Tables, after: Tables, id: Id, c: Case) {
    && id in before.disputes && id in after.disputes
    && CaseOf(after, id) == c
    && Elsewhere(after, id) == Elsewhere(before, id)
  }

  lemma OtherCasesAreElsewhere(t: Tables, t': Tables, id: Id, other: Id)
    requires Elsewhere(t, id) == Elsewhere(t', id) && other != id
    ensures other in t.disputes <==> other in t'.disputes
    ensures other in t.disputes ==> CaseOf(t', other) == CaseOf(t, other)
  {
    assert other in t.disputes - {id} <==> other in t'.disputes - {id};
    SameRows(t.events, t'.events, id, other);
    SameRows(t.deadlines, t'.deadlines, id, other);
    SameRows(t.ledger, t'.ledger, id, other);
    SameRows(t.risk, t'.risk, id, other);
    assert other in t.questions - {id} <==> other in t'.questions - {id};
    if other in t.questions {
      assert (t.questions - {id})[other] == (t'.questions - {id})[other];
    }
    if other in t.disputes {
      assert (t.disputes - {id})[other] == (t'.disputes - {id})[other];
    }
  }

  lemma SameRows<T>(m: map<Id, seq<T>>, m': map<Id, seq<T>>, id: Id, other: Id)
    requires m - {id} == m' - {id} && other != id
    ensures RowsOf(m, other) == RowsOf(m', other)
  {
    assert other in m - {id} <==> other in m' - {id};
    if other in m {
      assert (m - {id})[other] == (m' - {id})[other];
    }
  }

  predicate Visible(caller: Caller, rec: DisputeRecord) {
    rec.tenant == caller.tenant && (caller.teams.None? || rec.team in caller.teams.value)
  }

  predicate Finds(t: Tables, caller: Caller, id: Id) {
    id in t.disputes && Visible(caller, t.disputes[id])
  }

  // ---------------------------------------------------------------------------------------------------
  // What a transaction's operations do to the rows

  datatype Op =
    | InsertDispute(rec: DisputeRecord)
    | UpdateDisputeState(id: Id, expected: nat, state: State, appeals: nat, at: int)
    | UpdateDisputeTeam(id: Id, expected: nat, team: string, at: int)
    | AppendEvent(id: Id, event: EventRecord)
    | PutIdempotent(scope: string, key: string, stored: Stored<Case>)
    | InsertDeadlines(id: Id, ds: seq<Deadline>)
    | SettleDeadline(id: Id, kind: DeadlineKind, cycle: nat, met: bool, at: int)
    | AppendLedger(id: Id, entries: seq<LedgerEntry>)
    | SendQuestionnaire(id: Id, at: int)
    | AnswerQuestionnaire(id: Id, answers: Answers)
    | InsertNotice(notice: Notice)
    | InsertRisk(id: Id, record: RiskRecord)
    | InsertAttachment(number: nat, attachment: Attachment)
    | Abort(error: Error)

  predicate Matches(t: Tables, caller: Caller, id: Id, expected: nat) {
    id in t.disputes && t.disputes[id].tenant == caller.tenant && t.disputes[id].version == expected
  }

  /** What an operation leaves behind: the rows, the notice counter, which never goes back, and its answer. */
  datatype Done = Done(rows: Tables, counter: nat, result: Check<Error>)

  function Exec(t: Tables, counter: nat, caller: Caller, op: Op): Done {
    match op
    case InsertDispute(rec) =>
      Done(t.(disputes := t.disputes[rec.id := rec.(tenant := caller.tenant)]), counter, Pass)
    case UpdateDisputeState(id, expected, state, appeals, at) =>
      if !Matches(t, caller, id, expected) then Done(t, counter, Fail(Conflict))
      else
        Done(t.(disputes := t.disputes[id := t.disputes[id].(
               state := state, appeals := appeals, version := expected + 1, updatedAt := at)]), counter, Pass)
    case UpdateDisputeTeam(id, expected, team, at) =>
      if !Matches(t, caller, id, expected) then Done(t, counter, Fail(Conflict))
      else
        Done(t.(disputes := t.disputes[id := t.disputes[id].(
               team := team, version := expected + 1, updatedAt := at)]), counter, Pass)
    case AppendEvent(id, event) =>
      if NumberTaken(RowsOf(t.events, id), event.number) then Done(t, counter, Fail(Conflict))
      else Done(t.(events := t.events[id := RowsOf(t.events, id) + [event]]), counter, Pass)
    case PutIdempotent(scope, key, stored) =>
      Done(t.(idempotent := t.idempotent[Slot(caller.tenant, scope, key) := stored]), counter, Pass)
    case InsertDeadlines(id, ds) =>
      if !Finds(t, caller, id) then Done(t, counter, Fail(NotFound))
      else Done(t.(deadlines := t.deadlines[id := RowsOf(t.deadlines, id) + ds]), counter, Pass)
    case SettleDeadline(id, kind, cycle, met, at) =>
      if !Finds(t, caller, id) then Done(t, counter, Fail(NotFound))
      else if id !in t.deadlines then Done(t, counter, Pass)
      else Done(t.(deadlines := t.deadlines[id := StampMatching(t.deadlines[id], kind, cycle, met, at)]), counter, Pass)
    case AppendLedger(id, entries) =>
      if !Finds(t, caller, id) then Done(t, counter, Fail(NotFound))
      else
        var (rows, ok) := Appended(RowsOf(t.ledger, id), entries);
        Done(if entries == [] then t else t.(ledger := t.ledger[id := rows]), counter, if ok then Pass else Fail(Conflict))
    case SendQuestionnaire(id, at) =>
      if !Finds(t, caller, id) then Done(t, counter, Fail(NotFound))
      else Done(t.(questions := t.questions[id := Questionnaire(at, None)]), counter, Pass)
    case AnswerQuestionnaire(id, answers) =>
      if !Finds(t, caller, id) || id !in t.questions || t.questions[id].received.Some? then
        Done(t, counter, Fail(NotFound))
      else
        Done(t.(questions := t.questions[id := t.questions[id].(received := Some(answers))]), counter, Pass)
    case InsertNotice(notice) =>
      if !Finds(t, caller, notice.dispute) then Done(t, counter, Fail(NotFound))
      else Done(t.(notices := t.notices + [notice.(id := counter + 1)]), counter + 1, Pass)
    case InsertRisk(id, record) =>
      if !Finds(t, caller, id) then Done(t, counter, Fail(NotFound))
      else Done(t.(risk := t.risk[id := RowsOf(t.risk, id) + [record]]), counter, Pass)
    case InsertAttachment(number, attachment) =>
      if !Finds(t, caller, attachment.dispute) then Done(t, counter, Fail(NotFound))
      else Done(t.(attachments := t.attachments[number := attachment]), counter, Pass)
    case Abort(error) => Done(t, counter, Fail(error))
  }

  /** A transaction body: its operations in order, up to the first that fails. */
  function ExecAll(t: Tables, counter: nat, caller: Caller, ops: seq<Op>): Done {
    if ops == [] then Done(t, counter, Pass)
    else
      var before := ExecAll(t, counter, caller, ops[..|ops| - 1]);
      if before.result.Fail? then before else Exec(before.rows, before.counter, caller, ops[|ops| - 1])
  }

  /** The dispute an operation is about. */
  function Subject(op: Op): Option<Id> {
    match op
    case InsertDispute(rec) => Some(rec.id)
    case UpdateDisputeState(id, _, _, _, _) => Some(id)
    case UpdateDisputeTeam(id, _, _, _) => Some(id)
    case AppendEvent(id, _) => Some(id)
    case InsertDeadlines(id, _) => Some(id)
    case SettleDeadline(id, _, _, _, _) => Some(id)
    case AppendLedger(id, _) => Some(id)
    case SendQuestionnaire(id, _) => Some(id)
    case AnswerQuestionnaire(id, _) => Some(id)
    case InsertNotice(notice) => Some(notice.dispute)
    case InsertRisk(id, _) => Some(id)
    case InsertAttachment(_, attachment) => Some(attachment.dispute)
    case _ => None
  }

  /** The dispute is another tenant's to the caller, or another team's and more is asked of it than its version. */
  predicate IsClosedTo(caller: Caller, rec: DisputeRecord, op: Op) {
    || rec.tenant != caller.tenant
    || (caller.teams.Some? && rec.team !in caller.teams.value && !op.UpdateDisputeState? && !op.UpdateDisputeTeam?)
  }

  /** Every operation that looks its dispute up is refused to whom that is closed, and changes nothing. */
  lemma ClosedDisputesAreNotTouched(t: Tables, counter: nat, caller: Caller, op: Op, id: Id)
    requires id in t.disputes && Subject(op) == Some(id) && IsClosedTo(caller, t.disputes[id], op)
    requires !op.InsertDispute? && !op.AppendEvent?
    ensures Exec(t, counter, caller, op).result.Fail? && Exec(t, counter, caller, op).rows == t
  {
  }

  /** One dispute's rows are as they were. */
  ghost predicate LeavesAlone(t: Tables, t': Tables, id: Id)
    requires id in t.disputes
  {
    id in t'.disputes && CaseOf(t', id) == CaseOf(t, id)
  }

  /** What is about another dispute, or about none, leaves a dispute's rows alone. */
  lemma OtherDisputesAreLeftAlone(t: Tables, counter: nat, caller: Caller, op: Op, id: Id)
    requires id in t.disputes && Subject(op) != Some(id)
    ensures LeavesAlone(t, Exec(t, counter, caller, op).rows, id)
  {
    var t' := Exec(t, counter, caller, op).rows;
    match op
    case InsertDispute(_) => OtherRecordsAreLeftAlone(t, counter, caller, op, id);
    case UpdateDisputeState(_, _, _, _, _) => OtherRecordsAreLeftAlone(t, counter, caller, op, id);
    case UpdateDisputeTeam(_, _, _, _) => OtherRecordsAreLeftAlone(t, counter, caller, op, id);
    case InsertDeadlines(_, _) => OtherClocksAreLeftAlone(t, counter, caller, op, id);
    case SettleDeadline(_, _, _, _, _) => OtherClocksAreLeftAlone(t, counter, caller, op, id);
    case AppendLedger(_, _) => OtherLedgersAreLeftAlone(t, counter, caller, op, id);
    case _ => OthersAreLeftAlone(t, counter, caller, op, id);
  }

  lemma OtherRecordsAreLeftAlone(t: Tables, counter: nat, caller: Caller, op: Op, id: Id)
    requires op.InsertDispute? || op.UpdateDisputeState? || op.UpdateDisputeTeam?
    requires id in t.disputes && Subject(op) != Some(id)
    ensures LeavesAlone(t, Exec(t, counter, caller, op).rows, id)
  {
  }

  lemma OtherClocksAreLeftAlone(t: Tables, counter: nat, caller: Caller, op: Op, id: Id)
    requires op.InsertDeadlines? || op.SettleDeadline?
    requires id in t.disputes && Subject(op) != Some(id)
    ensures LeavesAlone(t, Exec(t, counter, caller, op).rows, id)
  {
  }

  lemma OtherLedgersAreLeftAlone(t: Tables, counter: nat, caller: Caller, op: Op, id: Id)
    requires op.AppendLedger? && id in t.disputes && Subject(op) != Some(id)
    ensures LeavesAlone(t, Exec(t, counter, caller, op).rows, id)
  {
  }

  lemma OthersAreLeftAlone(t: Tables, counter: nat, caller: Caller, op: Op, id: Id)
    requires !op.InsertDispute? && !op.UpdateDisputeState? && !op.UpdateDisputeTeam?
    requires !op.InsertDeadlines? && !op.SettleDeadline? && !op.AppendLedger?
    requires id in t.disputes && Subject(op) != Some(id)
    ensures LeavesAlone(t, Exec(t, counter, caller, op).rows, id)
  {
  }

  /** A record is advanced or moved exactly by whoever names its tenant and the version it has. */
  lemma RecordsAreComparedAndSet(
    t: Tables, counter: nat, caller: Caller, id: Id, expected: nat, state: State, appeals: nat, team: string, at: int)
    ensures Exec(t, counter, caller, Op.UpdateDisputeState(id, expected, state, appeals, at)).result
         == Exec(t, counter, caller, Op.UpdateDisputeTeam(id, expected, team, at)).result
         == if id in t.disputes && t.disputes[id].tenant == caller.tenant && t.disputes[id].version == expected
            then Pass else Fail(Conflict)
  {
  }

  /** What is inserted: a record of the caller's own tenant, and notices under numbers that are never given twice. */
  lemma InsertionsAreMarked(
    t: Tables, counter: nat, caller: Caller, rec: DisputeRecord, notice: Notice, number: nat, a: Attachment)
    ensures Exec(t, counter, caller, Op.InsertDispute(rec)).rows.disputes
         == t.disputes[rec.id := rec.(tenant := caller.tenant)]
    ensures Finds(t, caller, notice.dispute) ==>
              var done := Exec(t, counter, caller, Op.InsertNotice(notice));
              done.counter == counter + 1 && done.rows.notices == t.notices + [notice.(id := counter + 1)]
    ensures Finds(t, caller, a.dispute) ==>
              Exec(t, counter, caller, Op.InsertAttachment(number, a)).rows.attachments == t.attachments[number := a]
  {
  }

  /** A settlement stamps the open clocks of its kind and cycle, and no other. */
  lemma SettlementsAreStamped(
    t: Tables, counter: nat, caller: Caller, id: Id, kind: DeadlineKind, cycle: nat, met: bool, at: int, i: nat)
    requires Finds(t, caller, id) && id in t.deadlines && i < |t.deadlines[id]|
    ensures var d := t.deadlines[id][i];
            var rows := Exec(t, counter, caller, Op.SettleDeadline(id, kind, cycle, met, at)).rows;
            && id in rows.deadlines && |rows.deadlines[id]| == |t.deadlines[id]|
            && rows.deadlines[id][i]
               == if d.kind != kind || d.cycle != cycle || !d.Open() then d
                  else if met then d.(metAt := Some(at)) else d.(voidedAt := Some(at))
  {
  }

  /** Answers kept for a tenant are found by no other. */
  lemma AnswersAreTheTenants(t: Tables, counter: nat, caller: Caller, op: Op, slot: Slot)
    requires slot.tenant != caller.tenant
    ensures slot in Exec(t, counter, caller, op).rows.idempotent <==> slot in t.idempotent
    ensures slot in t.idempotent ==> Exec(t, counter, caller, op).rows.idempotent[slot] == t.idempotent[slot]
  {
  }

  // ---------------------------------------------------------------------------------------------------

  /** The copies a transaction starts with; clocks are slices, so each is copied into an array of its own. */
  datatype Snapshot = Snapshot(
    disputes: map<Id, DisputeRecord>,
    events: map<Id, seq<EventRecord>>,
    idempotent: map<Slot, Stored<Case>>,
    deadlines: map<Id, array<Deadline>>,
    ledger: map<Id, seq<LedgerEntry>>,
    questions: map<Id, Questionnaire>,
    notices: seq<Notice>,
    risk: map<Id, seq<RiskRecord>>,
    attachments: map<nat, Attachment>)
  {
    ghost function Rows(): Tables
      reads Slices(deadlines)
    {
      Tables(disputes, events, idempotent, Contents(deadlines), ledger, questions, notices, risk, attachments)
    }
  }

  ghost function Slices(m: map<Id, array<Deadline>>): set<object> {
    set id | id in m :: m[id]
  }

  ghost function Contents(m: map<Id, array<Deadline>>): map<Id, seq<Deadline>>
    reads Slices(m)
  {
    map id | id in m :: m[id][..]
  }

  /** Copies nobody writes to stay as they were. */
  twostate lemma KeptAside(s: Snapshot)
    requires forall id | id in s.deadlines :: unchanged(s.deadlines[id])
    ensures s.Rows() == old(s.Rows())
  {
    forall id | id in s.deadlines ensures s.deadlines[id][..] == old(s.deadlines[id][..]) {
      assert unchanged(s.deadlines[id]);
    }
    assert Contents(s.deadlines) == old(Contents(s.deadlines));
  }

  ghost predicate Separate(m: map<Id, array<Deadline>>) {
    forall i, j | i in m && j in m && i != j :: m[i] != m[j]
  }

  method HasReference(rows: seq<LedgerEntry>, reference: Reference) returns (taken: bool)
    ensures taken == ReferenceTaken(rows, reference)
  {
    for i := 0 to |rows|
      invariant forall j | 0 <= j < i :: rows[j].reference != reference
    {
      if rows[i].reference == reference {
        return true;
      }
    }
    return false;
  }

  /** Appends entries one at a time; what went in before a taken reference stays in. */
  method AppendUntilTaken(have: seq<LedgerEntry>, entries: seq<LedgerEntry>) returns (rows: seq<LedgerEntry>, ok: bool)
    ensures (rows, ok) == Appended(have, entries)
  {
    rows := have;
    for i := 0 to |entries|
      invariant Appended(have, entries[..i]) == (rows, true)
    {
      assert entries[..i + 1][..i] == entries[..i];
      var taken := HasReference(rows, entries[i].reference);
      if taken {
        AppendStops(have, entries, i + 1);
        return rows, false;
      }
      rows := rows + [entries[i]];
    }
    assert entries[..|entries|] == entries;
    ok := true;
  }

  class MemStore {
    var disputes: map<Id, DisputeRecord>
    var events: map<Id, seq<EventRecord>>
    var idempotent: map<Slot, Stored<Case>>
    var deadlines: map<Id, array<Deadline>>
    var ledger: map<Id, seq<LedgerEntry>>
    var questions: map<Id, Questionnaire>
    var notices: seq<Notice>
    var risk: map<Id, seq<RiskRecord>>
    var attachments: map<nat, Attachment>
    var nextNotice: nat

    /** The backing arrays of the clocks, which settlement writes into. */
    ghost function Backing(): set<object>
      reads this
    {
      Slices(deadlines)
    }

    /** No two disputes share a slice, and every dispute is kept under its own identifier. */
    ghost predicate Valid()
      reads this
    {
      Separate(deadlines) && forall id | id in disputes :: disputes[id].id == id
    }

    ghost function Rows(): Tables
      reads this, Backing()
    {
      Tables(disputes, events, idempotent, Contents(deadlines), ledger, questions, notices, risk, attachments)
    }

    constructor ()
      ensures Valid() && Rows() == Tables(map[], map[], map[], map[], map[], map[], [], map[], map[])
      ensures nextNotice == 0 && Backing() == {}
    {
      disputes, events, idempotent, deadlines, ledger := map[], map[], map[], map[], map[];
      questions, notices, risk, attachments, nextNotice := map[], [], map[], map[], 0;
    }

    method InsertDispute(caller: Caller, rec: DisputeRecord) returns (r: Check<Error>)
      requires Valid()
      modifies this
      ensures Valid() && Backing() == old(Backing())
      ensures Done(Rows(), nextNotice, r) == Exec(old(Rows()), old(nextNotice), caller, Op.InsertDispute(rec))
    {
      disputes := disputes[rec.id := rec.(tenant := caller.tenant)];
      r := Pass;
    }

    method UpdateDisputeState(caller: Caller, id: Id, expected: nat, state: State, appeals: nat, at: int)
      returns (r: Check<Error>)
      requires Valid()
      modifies this
      ensures Valid() && Backing() == old(Backing())
      ensures Done(Rows(), nextNotice, r)
           == Exec(old(Rows()), old(nextNotice), caller, Op.UpdateDisputeState(id, expected, state, appeals, at))
    {
      if id !in disputes || disputes[id].tenant != caller.tenant || disputes[id].version != expected {
        return Fail(Conflict);
      }
      disputes := disputes[id := disputes[id].(
        state := state, appeals := appeals, version := expected + 1, updatedAt := at)];
      r := Pass;
    }

    method UpdateDisputeTeam(caller: Caller, id: Id, expected: nat, team: string, at: int) returns (r: Check<Error>)
      requires Valid()
      modifies this
      ensures Valid() && Backing() == old(Backing())
      ensures Done(Rows(), nextNotice, r)
           == Exec(old(Rows()), old(nextNotice), caller, Op.UpdateDisputeTeam(id, expected, team, at))
    {
      if id !in disputes || disputes[id].tenant != caller.tenant || disputes[id].version != expected {
        return Fail(Conflict);
      }
      disputes := disputes[id := disputes[id].(team := team, version := expected + 1, updatedAt := at)];
      r := Pass;
    }

    method AppendEvent(caller: Caller, id: Id, event: EventRecord) returns (r: Check<Error>)
      requires Valid()
      modifies this
      ensures Valid() && Backing() == old(Backing())
      ensures Done(Rows(), nextNotice, r) == Exec(old(Rows()), old(nextNotice), caller, Op.AppendEvent(id, event))
    {
      var existing := RowsOf(events, id);
      for i := 0 to |existing|
        invariant forall j | 0 <= j < i :: existing[j].number != event.number
      {
        if existing[i].number == event.number {
          return Fail(Conflict);
        }
      }
      events := events[id := existing + [event]];
      r := Pass;
    }

    method PutIdempotent(caller: Caller, scope: string, key: string, stored: Stored<Case>) returns (r: Check<Error>)
      requires Valid()
      modifies this
      ensures Valid() && Backing() == old(Backing())
      ensures Done(Rows(), nextNotice, r) == Exec(old(Rows()), old(nextNotice), caller, Op.PutIdempotent(scope, key, stored))
    {
      idempotent := idempotent[Slot(caller.tenant, scope, key) := stored];
      r := Pass;
    }

    method InsertDeadlines(caller: Caller, id: Id, ds: seq<Deadline>) returns (r: Check<Error>)
      requires Valid()
      modifies this
      ensures Valid() && fresh(Backing() - old(Backing()))
      ensures Done(Rows(), nextNotice, r) == Exec(old(Rows()), old(nextNotice), caller, Op.InsertDeadlines(id, ds))
    {
      if id !in disputes || !Visible(caller, disputes[id]) {
        return Fail(NotFound);
      }
      var all := (if id in deadlines then deadlines[id][..] else []) + ds;
      var slice := new Deadline[|all|](i requires 0 <= i < |all| => all[i]);
      deadlines := deadlines[id := slice];
      assert slice[..] == all;
      assert Contents(deadlines) == old(Contents(deadlines))[id := all];
      r := Pass;
    }

    /** Writes into the dispute's slice in place; a clock already settled is left alone. */
    method SettleDeadline(caller: Caller, id: Id, kind: DeadlineKind, cycle: nat, met: bool, at: int)
      returns (r: Check<Error>)
      requires Valid()
      modifies Backing()
      ensures Valid() && Backing() == old(Backing())
      ensures Done(Rows(), nextNotice, r)
           == Exec(old(Rows()), old(nextNotice), caller, Op.SettleDeadline(id, kind, cycle, met, at))
    {
      if id !in disputes || !Visible(caller, disputes[id]) {
        return Fail(NotFound);
      }
      if id in deadlines {
        var ds := deadlines[id];
        for i := 0 to ds.Length
          modifies ds
          invariant forall j | 0 <= j < i :: ds[j] == StampMatching(old(deadlines[id][..]), kind, cycle, met, at)[j]
          invariant forall j | i <= j < ds.Length :: ds[j] == old(deadlines[id][j])
        {
          if ds[i].kind == kind && ds[i].cycle == cycle && ds[i].Open() {
            ds[i] := ds[i].Stamp(met, at);
          }
        }
        assert ds[..] == StampMatching(old(deadlines[id][..]), kind, cycle, met, at);
        forall i | i in deadlines && i != id ensures deadlines[i][..] == old(deadlines[i][..]) {
          assert deadlines[i] != ds;
        }
        assert Contents(deadlines) == old(Contents(deadlines))[id := ds[..]];
      }
      r := Pass;
    }

    method AppendLedger(caller: Caller, id: Id, entries: seq<LedgerEntry>) returns (r: Check<Error>)
      requires Valid()
      modifies this
      ensures Valid() && Backing() == old(Backing())
      ensures Done(Rows(), nextNotice, r) == Exec(old(Rows()), old(nextNotice), caller, Op.AppendLedger(id, entries))
    {
      if id !in disputes || !Visible(caller, disputes[id]) {
        return Fail(NotFound);
      }
      var rows, ok := AppendUntilTaken(RowsOf(ledger, id), entries);
      if entries != [] {
        ledger := ledger[id := rows];
      }
      r := if ok then Pass else Fail(Conflict);
    }

    method SendQuestionnaire(caller: Caller, id: Id, at: int) returns (r: Check<Error>)
      requires Valid()
      modifies this
      ensures Valid() && Backing() == old(Backing())
      ensures Done(Rows(), nextNotice, r) == Exec(old(Rows()), old(nextNotice), caller, Op.SendQuestionnaire(id, at))
    {
      if id !in disputes || !Visible(caller, disputes[id]) {
        return Fail(NotFound);
      }
      questions := questions[id := Questionnaire(at, None)];
      r := Pass;
    }

    /** Answers are recorded once. */
    method AnswerQuestionnaire(caller: Caller, id: Id, answers: Answers) returns (r: Check<Error>)
      requires Valid()
      modifies this
      ensures Valid() && Backing() == old(Backing())
      ensures Done(Rows(), nextNotice, r) == Exec(old(Rows()), old(nextNotice), caller, Op.AnswerQuestionnaire(id, answers))
    {
      if id !in disputes || !Visible(caller, disputes[id]) || id !in questions || questions[id].received.Some? {
        return Fail(NotFound);
      }
      questions := questions[id := questions[id].(received := Some(answers))];
      r := Pass;
    }

    method InsertNotice(caller: Caller, notice: Notice) returns (r: Check<Error>)
      requires Valid()
      modifies this
      ensures Valid() && Backing() == old(Backing())
      ensures Done(Rows(), nextNotice, r) == Exec(old(Rows()), old(nextNotice), caller, Op.InsertNotice(notice))
    {
      if notice.dispute !in disputes || !Visible(caller, disputes[notice.dispute]) {
        return Fail(NotFound);
      }
      nextNotice := nextNotice + 1;
      notices := notices + [notice.(id := nextNotice)];
      r := Pass;
    }

    method InsertRisk(caller: Caller, id: Id, record: RiskRecord) returns (r: Check<Error>)
      requires Valid()
      modifies this
      ensures Valid() && Backing() == old(Backing())
      ensures Done(Rows(), nextNotice, r) == Exec(old(Rows()), old(nextNotice), caller, Op.InsertRisk(id, record))
    {
      if id !in disputes || !Visible(caller, disputes[id]) {
        return Fail(NotFound);
      }
      risk := risk[id := RowsOf(risk, id) + [record]];
      r := Pass;
    }

    method InsertAttachment(caller: Caller, number: nat, attachment: Attachment) returns (r: Check<Error>)
      requires Valid()
      modifies this
      ensures Valid() && Backing() == old(Backing())
      ensures Done(Rows(), nextNotice, r)
           == Exec(old(Rows()), old(nextNotice), caller, Op.InsertAttachment(number, attachment))
    {
      if attachment.dispute !in disputes || !Visible(caller, disputes[attachment.dispute]) {
        return Fail(NotFound);
      }
      attachments := attachments[number := attachment];
      r := Pass;
    }

    /** Copies every table; each slice of clocks is copied into an array nothing else can write to. */
    method TakeSnapshot() returns (s: Snapshot)
      requires Valid()
      ensures s.Rows() == Rows() && Separate(s.deadlines) && fresh(Slices(s.deadlines))
    {
      var copies: map<Id, array<Deadline>> := map[];
      var todo := deadlines.Keys;
      while todo != {}
        invariant todo <= deadlines.Keys && copies.Keys == deadlines.Keys - todo
        invariant Separate(copies) && fresh(Slices(copies))
        invariant forall id | id in copies :: copies[id][..] == deadlines[id][..]
        decreases todo
      {
        var id :| id in todo;
        var ds := deadlines[id];
        var copy := new Deadline[ds.Length](i requires 0 <= i < ds.Length reads ds => ds[i]);
        assert copy[..] == ds[..];
        ghost var before := copies;
        copies := copies[id := copy];
        forall o | o in Slices(copies) ensures o == copy || o in Slices(before) {
          var k :| k in copies && copies[k] == o;
          assert k == id || before[k] == o;
        }
        todo := todo - {id};
      }
      s := Snapshot(disputes, events, idempotent, copies, ledger, questions, notices, risk, attachments);
      assert Contents(copies) == Contents(deadlines);
    }

    /** Puts the copies back; the notice counter is not among them. */
    method Restore(s: Snapshot)
      requires Separate(s.deadlines) && forall id | id in s.disputes :: s.disputes[id].id == id
      modifies this
      ensures Valid() && Rows() == s.Rows() && Backing() == Slices(s.deadlines)
      ensures nextNotice == old(nextNotice)
    {
      disputes, events, idempotent, deadlines := s.disputes, s.events, s.idempotent, s.deadlines;
      ledger, questions, notices, risk, attachments := s.ledger, s.questions, s.notices, s.risk, s.attachments;
      assert deadlines == s.deadlines;
    }

    /** Keeps what a transaction did, or puts the copies back. */
    method EndTx(s: Snapshot, commit: bool)
      requires Valid() && Separate(s.deadlines) && forall id | id in s.disputes :: s.disputes[id].id == id
      modifies this
      ensures Valid() && Rows() == if commit then old(Rows()) else old(s.Rows())
      ensures Backing() == if commit then old(Backing()) else Slices(s.deadlines)
      ensures nextNotice == old(nextNotice)
    {
      if !commit {
        Restore(s);
      }
    }

    /** Runs one operation of a transaction. */
    method Do(caller: Caller, op: Op) returns (r: Check<Error>)
      requires Valid()
      modifies this, Backing()
      ensures Valid() && fresh(Backing() - old(Backing()))
      ensures Done(Rows(), nextNotice, r) == Exec(old(Rows()), old(nextNotice), caller, op)
    {
      match op
      case InsertDispute(rec) => r := InsertDispute(caller, rec);
      case UpdateDisputeState(id, expected, state, appeals, at) =>
        r := UpdateDisputeState(caller, id, expected, state, appeals, at);
      case UpdateDisputeTeam(id, expected, team, at) => r := UpdateDisputeTeam(caller, id, expected, team, at);
      case AppendEvent(id, event) => r := AppendEvent(caller, id, event);
      case PutIdempotent(scope, key, stored) => r := PutIdempotent(caller, scope, key, stored);
      case InsertDeadlines(id, ds) => r := InsertDeadlines(caller, id, ds);
      case SettleDeadline(id, kind, cycle, met, at) => r := SettleDeadline(caller, id, kind, cycle, met, at);
      case AppendLedger(id, entries) => r := AppendLedger(caller, id, entries);
      case SendQuestionnaire(id, at) => r := SendQuestionnaire(caller, id, at);
      case AnswerQuestionnaire(id, answers) => r := AnswerQuestionnaire(caller, id, answers);
      case InsertNotice(notice) => r := InsertNotice(caller, notice);
      case InsertRisk(id, record) => r := InsertRisk(caller, id, record);
      case InsertAttachment(number, attachment) => r := InsertAttachment(caller, number, attachment);
      case Abort(error) => r := Fail(error);
    }

    /**
     * A transaction: whatever its operations did before one of them failed, including writes into slices of clocks,
     * the rows are back where they were; only the notice counter has moved.
     */
    method WithTx(caller: Caller, ops: seq<Op>) returns (r: Check<Error>)
      requires Valid()
      modifies this, Backing()
      ensures Valid() && fresh(Backing() - old(Backing()))
      ensures var done := ExecAll(old(Rows()), old(nextNotice), caller, ops);
              && r == done.result && nextNotice == done.counter
              && Rows() == if r.Pass? then done.rows else old(Rows())
    {
      ghost var was := Rows();
      var snapshot := TakeSnapshot();
      assert Slices(snapshot.deadlines) !! Backing();
      label taken:
      r := Body(caller, ops);
      KeptAside@taken(snapshot);
      EndTx(snapshot, r.Pass?);
    }

    /** The operations in order, up to the first that fails. */
    method Body(caller: Caller, ops: seq<Op>) returns (r: Check<Error>)
      requires Valid()
      modifies this, Backing()
      ensures Valid() && fresh(Backing() - old(Backing()))
      ensures Done(Rows(), nextNotice, r) == ExecAll(old(Rows()), old(nextNotice), caller, ops)
    {
      ghost var was, counter := Rows(), nextNotice;
      for i := 0 to |ops|
        invariant Valid() && fresh(Backing() - old(Backing()))
        invariant Done(Rows(), nextNotice, Pass) == ExecAll(was, counter, caller, ops[..i])
      {
        assert ops[..i + 1][..i] == ops[..i];
        r := Do(caller, ops[i]);
        if r.Fail? {
          StopsAtTheFirstFailure(was, counter, caller, ops, i + 1);
          return;
        }
      }
      assert ops[..|ops|] == ops;
      r := Pass;
    }
  }

  lemma {:induction false} AppendStops(have: seq<LedgerEntry>, entries: seq<LedgerEntry>, n: nat)
    requires n <= |entries| && !Appended(have, entries[..n]).1
    ensures Appended(have, entries) == Appended(have, entries[..n])
    decreases |entries|
  {
    if n < |entries| {
      var front := entries[..|entries| - 1];
      assert front[..n] == entries[..n];
      AppendStops(have, front, n);
    } else {
      assert entries[..n] == entries;
    }
  }

  lemma {:induction false} StopsAtTheFirstFailure(t: Tables, counter: nat, caller: Caller, ops: seq<Op>, n: nat)
    requires n <= |ops| && ExecAll(t, counter, caller, ops[..n]).result.Fail?
    ensures ExecAll(t, counter, caller, ops) == ExecAll(t, counter, caller, ops[..n])
    decreases |ops|
  {
    if n < |ops| {
      var front := ops[..|ops| - 1];
      assert front[..n] == ops[..n];
      StopsAtTheFirstFailure(t, counter, caller, front, n);
    } else {
      assert ops[..n] == ops;
    }
  }
}
