/** Separation of duties over whole runs: the log says who opened an investigation, and the guardrails read it. */
module Duties {
  import opened Prelude
  import opened Regimes
  import opened Lifecycle
  import opened BankingCore
  import opened Cases
  import opened Logs
  import opened Runs
  import opened Causes
  import Grants

  /** The actors of the entries that open an investigation. */
  function Investigators(events: seq<EventRecord>): seq<string> {
    if events == [] then []
    else
      var e := events[|events| - 1];
      Investigators(events[..|events| - 1]) + if e.kind == Lifecycled(OpenInvestigation) then [e.actor] else []
  }

  /** What policies read: the last of them, a stand-in if it was not recorded, nobody if there is none. */
  function OpenedBy(events: seq<EventRecord>): string {
    var all := Investigators(events);
    if all == [] then "" else if all[|all| - 1] == "" then Grants.UNRECORDED else all[|all| - 1]
  }

  /** The loop over the log that gathers it. */
  method FindOpener(events: seq<EventRecord>) returns (opener: string)
    ensures opener == OpenedBy(events)
  {
    opener := "";
    for i := 0 to |events|
      invariant opener == OpenedBy(events[..i])
    {
      assert events[..i + 1][..i] == events[..i];
      if events[i].kind == Lifecycled(OpenInvestigation) {
        opener := events[i].actor;
        if opener == "" {
          opener := Grants.UNRECORDED;
        }
      }
    }
    assert events[..|events|] == events;
  }

  // ---------------------------------------------------------------------------------------------------
  // One investigation a dispute

  ghost predicate InvestigatedOnce(s: Setup, c: Case) {
    && c.rec.regime in s.rules
    && |Investigators(c.events)| <= 1
    && (c.rec.state == Initiated ==> Investigators(c.events) == [])
    && (c.rec.state != Initiated && s.rules[c.rec.regime].refund != NoQuestionsAsked ==> |Investigators(c.events)| == 1)
  }

  lemma AttemptKeepsInvestigatedOnce(s: Setup, c: Case, core: CoreState, job: Job, env: Env)
    requires InvestigatedOnce(s, c)
    ensures InvestigatedOnce(s, Attempt(s, c, core, job, env).after)
  {
    var o := Attempt(s, c, core, job, env);
    if o.after != c {
      AttemptAppends(s, c, core, job, env);
      match job
      case Dispatch(req) => AnEventKeepsInvestigatedOnce(s, c, o.after, req.event);
      case Move(_) => AMoveKeepsInvestigatedOnce(s, c, o.after);
    }
  }

  lemma AnEventKeepsInvestigatedOnce(s: Setup, c: Case, c': Case, e: Event)
    requires InvestigatedOnce(s, c) && Extends(c, c') && c'.events[|c.events|].kind == Lifecycled(e)
    requires Advance(s.rules[c.rec.regime], c.rec.Lifecycle(), e) == Ok(c'.rec.Lifecycle())
    ensures InvestigatedOnce(s, c')
  {
    OnlyNewDisputesAreInvestigated(s.rules[c.rec.regime], c.rec.Lifecycle(), e);
  }

  lemma OnlyNewDisputesAreInvestigated(r: Rules, d: Dispute, e: Event)
    requires Advance(r, d, e).Ok?
    ensures Advance(r, d, e).value.state != Initiated && (e == OpenInvestigation ==> d.state == Initiated)
    ensures d.state == Initiated && r.refund != NoQuestionsAsked ==> e == OpenInvestigation
  {
  }

  lemma AMoveKeepsInvestigatedOnce(s: Setup, c: Case, c': Case)
    requires InvestigatedOnce(s, c) && Extends(c, c') && c'.events[|c.events|].kind == Reassigned
    requires c'.rec.Lifecycle() == c.rec.Lifecycle()
    ensures InvestigatedOnce(s, c')
  {
  }

  /** In every run a dispute is investigated at most once, and exactly once unless no questions are asked. */
  lemma {:induction false} EveryRunInvestigatesOnce(s: Setup, actions: seq<Action>, id: Id)
    requires id in Run(s, EMPTY_WORLD, actions).cases
    ensures InvestigatedOnce(s, Run(s, EMPTY_WORLD, actions).cases[id])
  {
    var before, a := actions[..|actions| - 1], actions[|actions| - 1];
    var w := Run(s, EMPTY_WORLD, before);
    if id in w.cases {
      EveryRunInvestigatesOnce(s, before, id);
      if a.On? && a.id == id {
        AttemptKeepsInvestigatedOnce(s, w.cases[id], w.core, a.job, a.env);
      }
    } else {
      var c := Open(s, a.input, a.env).value;
      assert c.events[..|c.events| - 1] == [];
      assert Investigators(c.events) == Investigators([]) + [];
    }
  }

  // ---------------------------------------------------------------------------------------------------
  // The engine's answer

  function UidOf(who: Principal): Grants.Uid {
    match who
    case Analyst(id) => Grants.Uid.Analyst(id)
    case TenantKey(id) => Grants.Uid.TenantKey(id)
  }

  /** The question is the one the engine asks for this access and these facts. */
  ghost predicate IsAsked(a: Grants.Access, who: Grants.Uid, d: Grants.Facts, q: Grants.Question) {
    && q.policies == Grants.Policies(a.grants)
    && (forall child, parent :: Grants.ParentOf(q.entities, child, parent) <==> Grants.IsEdge(a, who, d, child, parent))
    && (forall t :: t in q.leadOf <==> Grants.Leads(a, who, t))
  }

  /** A final credit is authorised only if the engine allows it, under whatever access, on facts read from the log. */
  ghost predicate DecidedByTheEngine(c: Case, env: Env) {
    env.authorised ==>
      exists a, d: Grants.Facts, q ::
        && IsAsked(a, UidOf(env.who), d, q) && d.openedBy == OpenedBy(c.events)
        && Grants.Allows(q, UidOf(env.who), Grants.ISSUE_FINAL_CREDIT, d)
  }

  /** The answer refuses a final credit to the analyst on record, and to every analyst if nobody is. */
  ghost predicate HeedsTheLog(c: Case, env: Env) {
    env.authorised && env.who.Analyst? ==>
      OpenedBy(c.events) != env.who.id && OpenedBy(c.events) != Grants.UNRECORDED
  }

  /** No grant, membership or limit can make the engine answer otherwise. */
  lemma TheEngineHeedsTheLog(c: Case, env: Env)
    requires DecidedByTheEngine(c, env)
    ensures HeedsTheLog(c, env)
  {
    if !env.authorised || !env.who.Analyst? {
      return;
    }
    var a, d: Grants.Facts, q :|
      && IsAsked(a, UidOf(env.who), d, q) && d.openedBy == OpenedBy(c.events)
      && Grants.Allows(q, UidOf(env.who), Grants.ISSUE_FINAL_CREDIT, d);
    Grants.AllowedIffLetAndNotRefused(a, UidOf(env.who), Grants.ISSUE_FINAL_CREDIT, d, q);
  }

  function FinalCredit(payload: Payload): Job { Dispatch(Request(IssueFinalCredit, payload)) }

  /** Exactly one actor, recorded by name, opened the investigation, and it is not this one. */
  ghost predicate InvestigatedByAnother(c: Case, actor: string) {
    |Investigators(c.events)| == 1 && Investigators(c.events)[0] != "" && Investigators(c.events)[0] != actor
  }

  lemma ACreditedDisputeWasInvestigatedByAnother(s: Setup, c: Case, core: CoreState, payload: Payload, env: Env)
    requires InvestigatedOnce(s, c) && HeedsTheLog(c, env) && env.who.Analyst?
    requires Attempt(s, c, core, FinalCredit(payload), env).result.Pass?
    ensures InvestigatedByAnother(c, env.who.id)
    ensures NamesActor(Attempt(s, c, core, FinalCredit(payload), env).after, env.who.id)
  {
    OnlyCreditedDisputes(s, c, core, payload, env);
  }

  /**
   * After every run, an analyst whose final credit of a dispute goes through is not the one who opened its
   * investigation, and the credit's entry names the analyst.
   */
  lemma NobodyCreditsTheirOwnInvestigation(
    s: Setup, actions: seq<Action>, id: Id, c: Case, core: CoreState, payload: Payload, env: Env)
    requires id in Run(s, EMPTY_WORLD, actions).cases
    requires c == Run(s, EMPTY_WORLD, actions).cases[id] && core == Run(s, EMPTY_WORLD, actions).core
    requires env.who.Analyst? && HeedsTheLog(c, env)
    requires Attempt(s, c, core, FinalCredit(payload), env).result.Pass?
    ensures InvestigatedByAnother(c, env.who.id)
    ensures NamesActor(Attempt(s, c, core, FinalCredit(payload), env).after, env.who.id)
  {
    EveryRunInvestigatesOnce(s, actions, id);
    ACreditedDisputeWasInvestigatedByAnother(s, c, core, payload, env);
  }

  /** The last entry of the log names an actor. */
  ghost predicate NamesActor(c: Case, actor: string) {
    c.events != [] && c.events[|c.events| - 1].actor == actor
  }

  /** A final credit follows a provisional one, so there was an investigation. */
  lemma OnlyCreditedDisputes(s: Setup, c: Case, core: CoreState, payload: Payload, env: Env)
    requires Attempt(s, c, core, FinalCredit(payload), env).result.Pass?
    ensures env.authorised && c.rec.regime in s.rules
    ensures c.rec.state == ChargebackWon && s.rules[c.rec.regime].refund == ProvisionalCredit
    ensures NamesActor(Attempt(s, c, core, FinalCredit(payload), env).after, env.who.id)
  {
    var req := Request(IssueFinalCredit, payload);
    EntryIsTheEvent(s, c, core, req, env);
    OnlyWonChargebacksAreCredited(s.rules[c.rec.regime], c.rec.Lifecycle());
    assert Decide(s, c, req, env).Ok?;
  }

  lemma OnlyWonChargebacksAreCredited(r: Rules, d: Dispute)
    requires Advance(r, d, IssueFinalCredit).Ok?
    ensures d.state == ChargebackWon && r.refund == ProvisionalCredit
  {
  }
}
