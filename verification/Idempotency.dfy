/** Replaying a write under a caller's key (application/service.go, idempotent). */
module Idempotency {
  import opened Prelude

  /** How a request names itself: an empty key asks for no replay; keys of old were stored under the bare scope. */
  datatype Ticket = Ticket(tenant: nat, scope: string, bareScope: string, key: string, hash: string)

  datatype Slot = Slot(tenant: nat, scope: string, key: string)

  datatype Stored<V> = Stored(hash: string, view: V)

  datatype Answer<V> = Answer(view: V, replayed: bool)

  function SlotOf(t: Ticket): Slot { Slot(t.tenant, t.scope, t.key) }

  datatype Verdict<V> = Replay(view: V) | Refuse | Proceed

  /** What the key alone decides. */
  function Consult<V>(table: map<Slot, Stored<V>>, t: Ticket): Verdict<V> {
    if t.key == "" then Proceed
    else if SlotOf(t) in table then
      if table[SlotOf(t)].hash != t.hash then Refuse else Replay(table[SlotOf(t)].view)
    else if t.scope != t.bareScope && Slot(t.tenant, t.bareScope, t.key) in table then Refuse
    else Proceed
  }

  /** The wrapped write; when it fails it leaves only what a rollback cannot undo. */
  type Write<!S, !V> = S -> (S, Result<V, Error>)

  datatype Memory<S, V> = Memory(table: map<Slot, Stored<V>>, state: S)

  function Guarded<S, V>(m: Memory<S, V>, t: Ticket, write: Write<S, V>): (Memory<S, V>, Result<Answer<V>, Error>) {
    match Consult(m.table, t)
    case Replay(view) => (m, Ok(Answer(view, true)))
    case Refuse => (m, Err(IdempotencyReuse))
    case Proceed =>
      var (state, r) := write(m.state);
      if r.Err? then (Memory(m.table, state), Err(r.error))
      else
        (Memory(if t.key == "" then m.table else m.table[SlotOf(t) := Stored(t.hash, r.value)], state),
         Ok(Answer(r.value, false)))
  }

  // ---------------------------------------------------------------------------------------------------
  // Any sequence of requests

  datatype Call<!S, !V> = Call(ticket: Ticket, write: Write<S, V>)

  /** The memory after the first n calls. */
  function After<S, V>(m: Memory<S, V>, calls: seq<Call<S, V>>, n: nat): Memory<S, V>
    requires n <= |calls|
  {
    if n == 0 then m else Guarded(After(m, calls, n - 1), calls[n - 1].ticket, calls[n - 1].write).0
  }

  function AnswerTo<S, V>(m: Memory<S, V>, calls: seq<Call<S, V>>, i: nat): Result<Answer<V>, Error>
    requires i < |calls|
  {
    Guarded(After(m, calls, i), calls[i].ticket, calls[i].write).1
  }

  /** The write ran and its effects were kept. */
  predicate Commits<S, V>(m: Memory<S, V>, calls: seq<Call<S, V>>, i: nat)
    requires i < |calls|
  {
    AnswerTo(m, calls, i).Ok? && !AnswerTo(m, calls, i).value.replayed
  }

  lemma GuardedKeepsAnswers<S, V>(m: Memory<S, V>, t: Ticket, write: Write<S, V>, slot: Slot)
    requires slot in m.table
    ensures slot in Guarded(m, t, write).0.table && Guarded(m, t, write).0.table[slot] == m.table[slot]
  {
  }

  lemma {:induction false} AnswersAreKept<S, V>(m: Memory<S, V>, calls: seq<Call<S, V>>, i: nat, j: nat, slot: Slot)
    requires i <= j <= |calls| && slot in After(m, calls, i).table
    ensures slot in After(m, calls, j).table && After(m, calls, j).table[slot] == After(m, calls, i).table[slot]
    decreases j
  {
    if i < j {
      AnswersAreKept(m, calls, i, j - 1, slot);
      GuardedKeepsAnswers(After(m, calls, j - 1), calls[j - 1].ticket, calls[j - 1].write, slot);
    }
  }

  /** Two requests name themselves alike: the same tenant says the same key for the same thing. */
  predicate SameName(t: Ticket, u: Ticket) { t.tenant == u.tenant && t.scope == u.scope && t.key == u.key != "" }

  /**
   * Once a request under a key has been answered, every later request under that key is either a replay of the same
   * view, when its body hashes the same, or refused; in both cases it changes nothing, whatever it would have written.
   */
  lemma AKeyIsAnsweredOnce<S, V>(m: Memory<S, V>, calls: seq<Call<S, V>>, i: nat, j: nat)
    requires i < j < |calls|
    requires SameName(calls[i].ticket, calls[j].ticket) && AnswerTo(m, calls, i).Ok?
    ensures AnswerTo(m, calls, j)
         == if calls[j].ticket.hash == calls[i].ticket.hash
            then Ok(Answer(AnswerTo(m, calls, i).value.view, true)) else Err(IdempotencyReuse)
    ensures After(m, calls, j + 1) == After(m, calls, j)
  {
    var slot := SlotOf(calls[i].ticket);
    assert After(m, calls, i + 1).table[slot] == Stored(calls[i].ticket.hash, AnswerTo(m, calls, i).value.view);
    AnswersAreKept(m, calls, i + 1, j, slot);
  }

  /** So a keyed write commits at most once. */
  lemma AKeyedWriteCommitsOnce<S, V>(m: Memory<S, V>, calls: seq<Call<S, V>>, i: nat, j: nat)
    requires i < |calls| && j < |calls|
    requires SameName(calls[i].ticket, calls[j].ticket)
    requires Commits(m, calls, i) && Commits(m, calls, j)
    ensures i == j
  {
    if i < j {
      AKeyIsAnsweredOnce(m, calls, i, j);
    } else if j < i {
      AKeyIsAnsweredOnce(m, calls, j, i);
    }
  }

  /** A request that failed has not used up its key: the table is as it was, and only the write's remains are left. */
  lemma AFailureLeavesTheKeyFree<S, V>(m: Memory<S, V>, t: Ticket, write: Write<S, V>)
    requires Guarded(m, t, write).1.Err?
    ensures Guarded(m, t, write).0.table == m.table
    ensures Guarded(m, t, write).0.state == m.state
         || (Consult(m.table, t).Proceed? && Guarded(m, t, write).0.state == write(m.state).0)
  {
  }

  /** Requests that differ in tenant, in key or in scope do not know of each other. */
  lemma OtherNamesAreIndependent<S, V>(m: Memory<S, V>, t: Ticket, write: Write<S, V>, u: Ticket)
    requires u.key == "" || u.tenant != t.tenant || u.key != t.key || (u.scope != t.scope && u.bareScope != t.scope)
    ensures Consult(Guarded(m, t, write).0.table, u) == Consult(m.table, u)
    ensures t.key == "" ==> Guarded(m, t, write).0.table == m.table
  {
  }

  /** A key that nothing has been answered under, with its scope or with the bare one, lets the write run. */
  lemma {:induction false} AFreshKeyProceeds<S, V>(calls: seq<Call<S, V>>, n: nat, state: S, t: Ticket)
    requires n <= |calls|
    requires forall i | 0 <= i < n ::
               var u := calls[i].ticket;
               u.key != t.key || u.tenant != t.tenant || (u.scope != t.scope && u.scope != t.bareScope)
    ensures Consult(After(Memory(map[], state), calls, n).table, t).Proceed?
  {
    if n > 0 {
      AFreshKeyProceeds(calls, n - 1, state, t);
      OtherNamesAreIndependent(After(Memory(map[], state), calls, n - 1), calls[n - 1].ticket, calls[n - 1].write, t);
    }
  }

  /**
   * A key answered when keys were still kept under the bare scope is refused under a scope that names more, unless
   * that scope has an answer of its own; either way nothing is written again.
   */
  lemma AnOldKeyIsNotUsedAgain<S, V>(m: Memory<S, V>, calls: seq<Call<S, V>>, i: nat, j: nat)
    requires i < j < |calls| && AnswerTo(m, calls, i).Ok?
    requires var t, u := calls[i].ticket, calls[j].ticket;
             t.tenant == u.tenant && t.key == u.key != "" && t.scope == u.bareScope != u.scope
    ensures After(m, calls, j + 1) == After(m, calls, j) && !Commits(m, calls, j)
    ensures var u := calls[j].ticket;
            Slot(u.tenant, u.scope, u.key) !in After(m, calls, j).table ==> AnswerTo(m, calls, j) == Err(IdempotencyReuse)
  {
    var slot := SlotOf(calls[i].ticket);
    assert slot in After(m, calls, i + 1).table;
    AnswersAreKept(m, calls, i + 1, j, slot);
  }
}
