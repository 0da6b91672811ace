/** The tenant's banking core, in ISO 8583 terms (infrastructure/mockcore/mockcore.go, application/core.go). */
module BankingCore {
  import opened Prelude
  import opened Ledger

  type Id = nat

  /** The stable name of a posting: the dispute, the event and the kind. */
  datatype Reference = Reference(dispute: Id, event: nat, kind: PostingKind)

  /** How a reference becomes a retrieval reference number (data element 37). */
  type Numbering = Reference -> string

  datatype Receipt = Receipt(rrn: string, responseCode: string, approved: bool, duplicate: bool)

  /** What the core is asked to do with the customer's account, and under which reference. */
  datatype Instruction = Instruction(reference: Reference, account: nat, credit: bool, amount: real)

  /** What a tenant configures of its core; answers is false while it is down or slower than the caller waits. */
  datatype Settings = Settings(declineAbove: Option<real>, insufficientFunds: set<nat>, answers: bool)

  datatype CoreConfig = BookOnly | Unroutable | Connected(settings: Settings)

  /** Money that changed hands at the bank. */
  datatype Movement = Movement(reference: Reference, credit: bool, amount: real) {
    function Signed(): real { if credit then amount else -amount }
  }

  /** The core's memory: first answers by retrieval reference, a message counter, and the money it has moved. */
  datatype CoreState = CoreState(seen: map<string, Receipt>, stan: nat, moved: seq<Movement>)

  const EMPTY_CORE := CoreState(map[], 0, [])

  function Verdict(s: Settings, ins: Instruction): string {
    if ins.credit && s.declineAbove.Some? && ins.amount > s.declineAbove.value then "61"
    else if !ins.credit && ins.account in s.insufficientFunds then "51"
    else "00"
  }

  /** One exchange: a repeat is answered as before and moves nothing; only approvals are remembered. */
  function Exchange(rrn: Numbering, core: CoreState, s: Settings, ins: Instruction): (CoreState, Result<Receipt, Error>) {
    var counted := core.(stan := core.stan + 1);
    var key := rrn(ins.reference);
    if !s.answers then (counted, Err(Unavailable))
    else if key in core.seen then
      (counted, Ok(core.seen[key].(duplicate := true, responseCode := "94")))
    else
      var code := Verdict(s, ins);
      var receipt := Receipt(key, code, code == "00", false);
      if code == "00" then
        (counted.(seen := core.seen[key := receipt],
                  moved := core.moved + [Movement(ins.reference, ins.credit, ins.amount)]), Ok(receipt))
      else (counted, Ok(receipt))
  }

  /** The router: no core means the ledger is the only record. */
  function Instruct(rrn: Numbering, core: CoreState, cfg: CoreConfig, ins: Instruction): (CoreState, Result<Receipt, Error>) {
    match cfg
    case BookOnly => (core, Ok(Receipt("", "00", true, false)))
    case Unroutable => (core, Err(Unavailable))
    case Connected(settings) => Exchange(rrn, core, settings, ins)
  }

  /** The adapter, one per process. */
  class Core {
    const rrn: Numbering
    var seen: map<string, Receipt>
    var stan: nat
    ghost var moved: seq<Movement>

    ghost function State(): CoreState
      reads this
    {
      CoreState(seen, stan, moved)
    }

    constructor (rrn: Numbering)
      ensures this.rrn == rrn && State() == EMPTY_CORE
    {
      this.rrn := rrn;
      seen, stan, moved := map[], 0, [];
    }

    method Post(cfg: CoreConfig, ins: Instruction) returns (r: Result<Receipt, Error>)
      modifies this
      ensures (State(), r) == Instruct(rrn, old(State()), cfg, ins)
    {
      if cfg.BookOnly? {
        return Ok(Receipt("", "00", true, false));
      } else if cfg.Unroutable? {
        return Err(Unavailable);
      }
      var key := rrn(ins.reference);
      stan := stan + 1;
      if !cfg.settings.answers {
        return Err(Unavailable);
      }
      if key in seen {
        return Ok(seen[key].(duplicate := true, responseCode := "94"));
      }
      var code := "00";
      if ins.credit && cfg.settings.declineAbove.Some? && ins.amount > cfg.settings.declineAbove.value {
        code := "61";
      } else if !ins.credit && ins.account in cfg.settings.insufficientFunds {
        code := "51";
      }
      var receipt := Receipt(key, code, code == "00", false);
      if receipt.approved {
        seen := seen[key := receipt];
        moved := moved + [Movement(ins.reference, ins.credit, ins.amount)];
      }
      r := Ok(receipt);
    }
  }

  /** The codes it answers with, the first answer a number gets, and the count of what it was asked. */
  lemma WhatTheCoreAnswers(rrn: Numbering, core: CoreState, s: Settings, ins: Instruction)
    ensures var (core', answer) := Exchange(rrn, core, s, ins);
            && core'.stan == core.stan + 1 && (answer.Err? <==> !s.answers)
            && (answer.Err? ==> answer.error == Unavailable && core' == core.(stan := core.stan + 1))
            && (answer.Ok? ==>
                  var key, a := rrn(ins.reference), answer.value;
                  && (a.responseCode == "94" <==> key in core.seen)
                  && (a.responseCode == "61" <==>
                        key !in core.seen && ins.credit
                        && s.declineAbove.Some? && s.declineAbove.value < ins.amount)
                  && (a.responseCode == "51" <==> key !in core.seen && !ins.credit && ins.account in s.insufficientFunds)
                  && (a.responseCode == "00" <==> core'.moved != core.moved)
                  && (a.responseCode in ["61", "51"] ==> !a.approved && core' == core.(stan := core.stan + 1))
                  && (a.responseCode == "00" ==>
                        && a == Receipt(key, "00", true, false) && core'.seen == core.seen[key := a]
                        && core'.moved == core.moved + [Movement(ins.reference, ins.credit, ins.amount)])
                  && (a.responseCode == "94" ==> a == core.seen[key].(responseCode := "94", duplicate := true)))
  {
  }

  // ---------------------------------------------------------------------------------------------------
  // What the core guarantees whatever it is sent

  ghost predicate Sound(rrn: Numbering, core: CoreState) {
    && (forall k | k in core.seen :: core.seen[k].approved && core.seen[k].rrn == k)
    && (forall k | k in core.seen :: MovedUnder(rrn, core.moved, k))
    && (forall i | 0 <= i < |core.moved| :: rrn(core.moved[i].reference) in core.seen)
    && (forall i, j | 0 <= i < j < |core.moved| :: rrn(core.moved[i].reference) != rrn(core.moved[j].reference))
  }

  ghost predicate MovedUnder(rrn: Numbering, moved: seq<Movement>, key: string) {
    exists i :: 0 <= i < |moved| && rrn(moved[i].reference) == key
  }

  ghost predicate HasMoved(core: CoreState, ref: Reference) {
    exists i :: 0 <= i < |core.moved| && core.moved[i].reference == ref
  }

  lemma ExchangeKeepsSound(rrn: Numbering, core: CoreState, cfg: CoreConfig, ins: Instruction)
    requires Sound(rrn, core)
    ensures Sound(rrn, Instruct(rrn, core, cfg, ins).0)
  {
    var core' := Instruct(rrn, core, cfg, ins).0;
    if core'.moved != core.moved {
      ApprovalKeepsSound(rrn, core, core', rrn(ins.reference), Movement(ins.reference, ins.credit, ins.amount));
    }
  }

  lemma ApprovalKeepsSound(rrn: Numbering, core: CoreState, core': CoreState, key: string, m: Movement)
    requires Sound(rrn, core)
    requires key !in core.seen && rrn(m.reference) == key
    requires core'.moved == core.moved + [m]
    requires core'.seen == core.seen[key := Receipt(key, "00", true, false)]
    ensures Sound(rrn, core')
  {
    forall k | k in core'.seen ensures MovedUnder(rrn, core'.moved, k) {
      if k == key {
        assert rrn(core'.moved[|core.moved|].reference) == k;
      } else {
        var i :| 0 <= i < |core.moved| && rrn(core.moved[i].reference) == k;
        assert core'.moved[i] == core.moved[i];
      }
    }
  }

  /** At most one movement for a reference, with no assumption on how references are numbered. */
  lemma MoneyMovesAtMostOnce(rrn: Numbering, core: CoreState, i: nat, j: nat)
    requires Sound(rrn, core)
    requires i < j < |core.moved|
    ensures core.moved[i].reference != core.moved[j].reference
  {
    assert rrn(core.moved[i].reference) != rrn(core.moved[j].reference);
  }

  /** Nothing but this very reference has moved under its number. */
  ghost predicate Unmistaken(rrn: Numbering, core: CoreState, ref: Reference) {
    forall m | m in core.moved && rrn(m.reference) == rrn(ref) :: m.reference == ref
  }

  /**
   * Through a connected core, an approved answer means that money has moved under the very reference, now or before,
   * exactly when nothing had moved under another reference with its number.
   */
  lemma ApprovalMeansMovedIffUnmistaken(rrn: Numbering, core: CoreState, s: Settings, ins: Instruction)
    requires Sound(rrn, core)
    requires var r := Exchange(rrn, core, s, ins).1; r.Ok? && r.value.approved
    ensures HasMoved(Exchange(rrn, core, s, ins).0, ins.reference) <==> Unmistaken(rrn, core, ins.reference)
  {
    var core', key := Exchange(rrn, core, s, ins).0, rrn(ins.reference);
    if key in core.seen {
      var i :| 0 <= i < |core.moved| && rrn(core.moved[i].reference) == key;
      assert core.moved[i] in core.moved;
      forall m | m in core.moved && rrn(m.reference) == key ensures m == core.moved[i] {
        var j :| 0 <= j < |core.moved| && core.moved[j] == m;
      }
    } else {
      assert core'.moved[|core.moved|].reference == ins.reference;
      forall m | m in core.moved ensures rrn(m.reference) != key {
        var j :| 0 <= j < |core.moved| && core.moved[j] == m;
      }
    }
  }

  /** So it can fail: a collision is answered as a duplicate and approved, and nothing moves. */
  lemma ACollisionIsApprovedUnpaid(rrn: Numbering, a: Reference, b: Reference, amount: real)
    requires a != b && rrn(a) == rrn(b)
    ensures var s := Settings(None, {}, true);
            var core := Exchange(rrn, EMPTY_CORE, s, Instruction(a, 0, true, amount)).0;
            var (core', r) := Exchange(rrn, core, s, Instruction(b, 0, true, amount));
            Sound(rrn, core) && r.Ok? && r.value.approved && core'.moved == core.moved && !HasMoved(core', b)
  {
    var s := Settings(None, {}, true);
    var core := Exchange(rrn, EMPTY_CORE, s, Instruction(a, 0, true, amount)).0;
    ExchangeKeepsSound(rrn, EMPTY_CORE, Connected(s), Instruction(a, 0, true, amount));
  }
}
