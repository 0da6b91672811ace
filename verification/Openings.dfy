/** Every dispute is what its opening made it: whose it is, what is claimed, and on which account. */
module Openings {
  import opened Regimes
  import opened Ledger
  import opened BankingCore
  import opened Cases
  import opened Logs
  import opened LedgerRuns
  import opened Runs
  import opened Movements

  /** The record still says what an opening was asked for. */
  ghost predicate IsAsOpened(rec: DisputeRecord, input: OpenInput, env: Env) {
    && rec.id == input.id && rec.tenant == input.tenant && rec.regime == input.regime && rec.reason == input.reason
    && rec.account == input.account && rec.disputedAmount == input.amount && rec.currency == input.currency
    && rec.openedAt == env.now
  }

  /** The k-th action opened the dispute. */
  ghost predicate Opens(s: Setup, actions: seq<Action>, k: int, id: Id) {
    && 0 <= k < |actions| && actions[k].Begin? && actions[k].input.id == id && actions[k].env.authorised
    && id !in At(s, actions, k).cases && id in At(s, actions, k + 1).cases
    && At(s, actions, k + 1).cases[id].rec.team == actions[k].input.team
  }

  lemma AttemptKeepsTheOpening(s: Setup, c: Case, core: CoreState, job: Job, env: Env, input: OpenInput, first: Env)
    requires IsAsOpened(c.rec, input, first)
    ensures IsAsOpened(Attempt(s, c, core, job, env).after.rec, input, first)
  {
    if Attempt(s, c, core, job, env).after != c {
      AttemptAppends(s, c, core, job, env);
    }
  }

  /** At every moment of every run, each dispute is as some earlier action opened it, and no other opened it. */
  lemma {:induction false} EveryDisputeIsAsOpened(s: Setup, actions: seq<Action>, n: nat, id: Id) returns (k: nat)
    requires n <= |actions| && id in At(s, actions, n).cases
    ensures k < n && Opens(s, actions, k, id)
    ensures IsAsOpened(At(s, actions, n).cases[id].rec, actions[k].input, actions[k].env)
    ensures forall j | k < j <= n :: id in At(s, actions, j).cases
  {
    k := n - 1;
    OneActionLater(s, actions, k);
    var w, a := At(s, actions, k), actions[k];
    if id in w.cases {
      k := EveryDisputeIsAsOpened(s, actions, k, id);
      if a.On? && a.id == id {
        AttemptKeepsTheOpening(s, w.cases[id], w.core, a.job, a.env, actions[k].input, actions[k].env);
      }
    }
  }

  /** Whatever is sent for a dispute names the account it was opened on. */
  lemma EveryInstructionNamesTheAccount(s: Setup, actions: seq<Action>, n: nat, id: Id) returns (k: nat)
    requires Tries(s, actions, n, id) && SentAt(s, actions, n, id).Some?
    ensures k < n && Opens(s, actions, k, id)
    ensures SentAt(s, actions, n, id).value.account == actions[k].input.account
  {
    k := EveryDisputeIsAsOpened(s, actions, n, id);
  }

  /** The customer has been given no more than the claim for each cycle, all of it in suspense, recovered or lost. */
  ghost predicate WithinTheClaim(c: Case, claim: real) {
    claim >= 0.0 ==> Conserved(PostingsOf(c.ledger), (c.rec.appeals + 1) as real * claim)
  }

  /** The books of a dispute are conserved, and bounded by what was claimed when it was opened. */
  lemma TheClaimBoundsTheCustomer(s: Setup, actions: seq<Action>, n: nat, id: Id) returns (k: nat)
    requires WellFormedTable(s.rules) && n <= |actions| && id in At(s, actions, n).cases
    ensures k < n && Opens(s, actions, k, id)
    ensures WithinTheClaim(At(s, actions, n).cases[id], actions[k].input.amount)
  {
    k := EveryDisputeIsAsOpened(s, actions, n, id);
    EveryRunIsSound(s, actions[..n]);
    BoundedByTheClaim(s, At(s, actions, n).cases[id], actions[k].input.amount);
  }

  lemma BoundedByTheClaim(s: Setup, c: Case, claim: real)
    requires LedgerInv(s, c) && c.rec.disputedAmount == claim
    ensures WithinTheClaim(c, claim)
  {
    if claim >= 0.0 {
      CustomerIsNeverOverpaid(s, c);
    }
  }
}
