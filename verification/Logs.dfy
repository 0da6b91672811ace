/** The event log: gapless, connected, and enough to rebuild the lifecycle. */
module Logs {
  import opened Prelude
  import opened Regimes
  import opened Lifecycle
  import opened BankingCore
  import opened Cases

  /** Folds the lifecycle events of a log from a new dispute; the opening and moves between teams change nothing. */
  function Replay(rules: RulesTable, regime: string, events: seq<EventRecord>): Result<Dispute, Error> {
    if events == [] then New(rules, regime)
    else
      var before :- Replay(rules, regime, events[..|events| - 1]);
      match events[|events| - 1].kind
      case Lifecycled(e) => Apply(rules, before, e)
      case _ => Ok(before)
  }

  ghost predicate WellLinked(events: seq<EventRecord>) {
    && events != []
    && events[0].kind == Opened && events[0].from == None && events[0].target == Initiated
    && (forall i | 0 <= i < |events| :: events[i].number == i + 1)
    && (forall i | 1 <= i < |events| :: events[i].from == Some(events[i - 1].target) && events[i].kind != Opened)
  }

  ghost predicate LogInv(s: Setup, c: Case) {
    && WellLinked(c.events)
    && c.rec.version == |c.events|
    && c.rec.state == c.events[|c.events| - 1].target
    && Replay(s.rules, c.rec.regime, c.events) == Ok(c.rec.Lifecycle())
  }

  /** What happens to the log in one attempt: nothing, or one entry that continues it. */
  ghost predicate Extends(c: Case, c': Case) {
    && c'.events != [] && c'.events[..|c'.events| - 1] == c.events
    && c'.rec.version == c.rec.version + 1
    && c'.rec.(state := c.rec.state, appeals := c.rec.appeals, version := c.rec.version, updatedAt := c.rec.updatedAt,
               team := c.rec.team) == c.rec
  }

  lemma OpeningEstablishesLog(s: Setup, input: OpenInput, env: Env)
    requires Open(s, input, env).Ok?
    ensures LogInv(s, Open(s, input, env).value)
  {
    var c := Open(s, input, env).value;
    assert c.events[..0] == [];
  }

  lemma AttemptKeepsLog(s: Setup, c: Case, core: CoreState, job: Job, env: Env)
    requires LogInv(s, c)
    ensures var o := Attempt(s, c, core, job, env);
            LogInv(s, o.after) && (o.after == c || (o.result.Pass? && Extends(c, o.after)))
  {
    var c' := Attempt(s, c, core, job, env).after;
    if c' != c {
      AttemptAppends(s, c, core, job, env);
      AppendingKeepsLog(s, c, c');
    }
  }

  /** One entry that continues the log and says where the dispute has got to. */
  ghost predicate Continues(s: Setup, c: Case, c': Case)
    requires c'.events != []
  {
    var e := c'.events[|c'.events| - 1];
    && c'.events == c.events + [e]
    && c'.rec.regime == c.rec.regime && c'.rec.version == c.rec.version + 1 == e.number
    && e.from == Some(c.rec.state) && e.target == c'.rec.state && !e.kind.Opened?
    && (e.kind.Reassigned? ==> c'.rec.Lifecycle() == c.rec.Lifecycle())
    && (e.kind.Lifecycled? ==> Apply(s.rules, c.rec.Lifecycle(), e.kind.event) == Ok(c'.rec.Lifecycle()))
  }

  lemma AppendingKeepsLog(s: Setup, c: Case, c': Case)
    requires LogInv(s, c) && c'.events != [] && Continues(s, c, c')
    ensures LogInv(s, c')
  {
    assert c'.events[..|c.events|] == c.events;
  }

  lemma AttemptAppends(s: Setup, c: Case, core: CoreState, job: Job, env: Env)
    requires Attempt(s, c, core, job, env).after != c
    ensures var o := Attempt(s, c, core, job, env);
            var e := o.after.events[|o.after.events| - 1];
            && o.result.Pass?
            && o.after.events == c.events + [e]
            && e.number == c.rec.version + 1 == o.after.rec.version
            && e.from == Some(c.rec.state) && e.target == o.after.rec.state
            && e.kind == (if job.Move? then Reassigned else Lifecycled(job.req.event))
            && (job.Move? ==> o.after.rec.Lifecycle() == c.rec.Lifecycle())
            && (job.Dispatch? ==> Apply(s.rules, c.rec.Lifecycle(), job.req.event) == Ok(o.after.rec.Lifecycle()))
            && o.after.rec.(state := c.rec.state, appeals := c.rec.appeals, version := c.rec.version,
                            updatedAt := c.rec.updatedAt, team := c.rec.team) == c.rec
  {
  }
}
