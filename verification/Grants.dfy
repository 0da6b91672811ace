/** Grants compiled to permits and evaluated over the role ladder (dispute/authz: compile.go, entities.go, authz.go). */
module Grants {
  import opened Prelude

  datatype Grant = Grant(team: string, role: string, action: string, limit: Option<int>)

  datatype Membership = Membership(team: string, role: string)

  datatype Access = Access(version: int, teams: seq<string>, grants: seq<Grant>, members: seq<Membership>)

  /** What policies read about an existing dispute. */
  datatype Facts = Facts(id: nat, team: string, amount: int, openedBy: string)

  /** Amounts are counted in ten-thousandths, the precision of a Cedar decimal. */
  const CEDAR_MAX: int := 9_223_372_036_854_775_807
  const CEDAR_MIN: int := -9_223_372_036_854_775_808

  const JUNIOR := "junior"
  const SENIOR := "senior"
  const LEAD := "lead"

  // ---------------------------------------------------------------------------------------------------
  // Compiling

  predicate IsWord(c: char) { 'A' <= c <= 'Z' || 'a' <= c <= 'z' || '0' <= c <= '9' || c == '_' || c == '-' }

  predicate SafeTeam(s: string) { 1 <= |s| <= 64 && forall c | c in s :: IsWord(c) }

  predicate SafeAction(s: string) { 1 <= |s| <= 64 && forall c | c in s :: IsWord(c) || c == ':' }

  predicate IsRole(s: string) { s == JUNIOR || s == SENIOR || s == LEAD }

  /** A row that can be written as a permit without escaping anything. */
  predicate Expressible(g: Grant) {
    && IsRole(g.role) && SafeTeam(g.team) && SafeAction(g.action)
    && (g.limit.Some? ==> 0 <= g.limit.value <= CEDAR_MAX)
  }

  /** permit (principal in TeamRole::role, action == action, resource in Team::team) when amount <= limit. */
  datatype Permit = Permit(id: string, role: string, action: string, team: string, limit: Option<int>)

  function RoleName(team: string, role: string): string { team + "/" + role }

  function GrantId(g: Grant): string { "grant:" + (g.team + "/" + (g.role + "/" + g.action)) }

  function PermitOf(g: Grant): Permit { Permit(GrantId(g), RoleName(g.team, g.role), g.action, g.team, g.limit) }

  /** The rows a permit can be written for, and the rest, in order. */
  function Kept(grants: seq<Grant>, expressible: bool): seq<Grant> {
    if grants == [] then []
    else
      var g := grants[|grants| - 1];
      Kept(grants[..|grants| - 1], expressible) + if Expressible(g) == expressible then [g] else []
  }

  function Written(grants: seq<Grant>): (permits: seq<Permit>)
    ensures |permits| == |grants| && forall i | 0 <= i < |grants| :: permits[i] == PermitOf(grants[i])
  {
    seq(|grants|, i requires 0 <= i < |grants| => PermitOf(grants[i]))
  }

  /** One permit for each row that can be expressed safely; the others are reported, never escaped. */
  method Compile(a: Access) returns (permits: seq<Permit>, skipped: seq<Grant>)
    ensures permits == Written(Kept(a.grants, true)) && skipped == Kept(a.grants, false)
  {
    permits, skipped := [], [];
    for i := 0 to |a.grants|
      invariant permits == Written(Kept(a.grants[..i], true)) && skipped == Kept(a.grants[..i], false)
    {
      var g := a.grants[i];
      assert a.grants[..i + 1] == a.grants[..i] + [g];
      if !IsRole(g.role) || !SafeTeam(g.team) || !SafeAction(g.action)
         || (g.limit.Some? && (g.limit.value < 0 || g.limit.value > CEDAR_MAX))
      {
        skipped := skipped + [g];
      } else {
        permits := permits + [PermitOf(g)];
      }
    }
    assert a.grants[..|a.grants|] == a.grants;
  }

  // ---------------------------------------------------------------------------------------------------
  // A policy set is keyed by policy id: a later policy replaces an earlier one with its id

  /** The policies no tenant can change (guardrails.cedar). */
  datatype Guardrail =
    | SodFinalCredit
    | SodUnrecordedInvestigator
    | ReassignLeadsOnly
    | TenantAdmin
    | KeysDisputes
    | KeysCreate
    | KeysNotPeople
  {
    predicate Forbids() { SodFinalCredit? || SodUnrecordedInvestigator? || ReassignLeadsOnly? || KeysNotPeople? }
  }

  datatype Policy = Guard(rule: Guardrail) | Granted(permit: Permit)

  const GUARDRAILS: map<string, Policy> := map[
    "sod-final-credit" := Guard(SodFinalCredit),
    "sod-unrecorded-investigator" := Guard(SodUnrecordedInvestigator),
    "reassign-leads-only" := Guard(ReassignLeadsOnly),
    "tenant-admin" := Guard(TenantAdmin),
    "keys-disputes" := Guard(KeysDisputes),
    "keys-create" := Guard(KeysCreate),
    "keys-not-people" := Guard(KeysNotPeople)]

  /** The guardrails first, then the permits in order. */
  function PolicySet(permits: seq<Permit>): map<string, Policy> {
    if permits == [] then GUARDRAILS
    else
      var p := permits[|permits| - 1];
      PolicySet(permits[..|permits| - 1])[p.id := Granted(p)]
  }

  predicate SameKey(g: Grant, h: Grant) { g.team == h.team && g.role == h.role && g.action == h.action }

  /** A row that can be expressed and that no later such row with its key replaces. */
  ghost predicate Stands(grants: seq<Grant>, i: int) {
    && 0 <= i < |grants| && Expressible(grants[i])
    && forall j | i < j < |grants| && Expressible(grants[j]) :: !SameKey(grants[i], grants[j])
  }

  /** A letter, a digit, an underscore or a hyphen, by its ASCII code. */
  predicate IsPlainChar(c: char) {
    var n := c as int;
    48 <= n <= 57 || 65 <= n <= 90 || 97 <= n <= 122 || n in {45, 95}
  }

  /** A row in plain words: one of the three roles, a team, an action which may have colons, and a limit in range. */
  ghost predicate Plain(g: Grant) {
    && g.role in ["junior", "senior", "lead"]
    && 1 <= |g.team| <= 64 && (forall c | c in g.team :: IsPlainChar(c))
    && 1 <= |g.action| <= 64 && (forall c | c in g.action :: IsPlainChar(c) || c == ':')
    && (g.limit.Some? ==> 0 <= g.limit.value <= 9_223_372_036_854_775_807)
  }

  /** Exactly the rows in plain words become permits. */
  lemma ExpressibleIffPlain(g: Grant)
    ensures Expressible(g) <==> Plain(g)
  {
    forall c: char ensures IsWord(c) <==> IsPlainChar(c) {
    }
  }

  /** So the grants in force are the plain ones that no later plain one for the same team, role and action replaces. */
  lemma StandsIffPlain(grants: seq<Grant>, i: nat)
    requires i < |grants|
    ensures Stands(grants, i)
       <==> Plain(grants[i])
            && forall j | i < j < |grants| && Plain(grants[j]) ::
                 (grants[j].team, grants[j].role, grants[j].action)
                   != (grants[i].team, grants[i].role, grants[i].action)
  {
    forall g ensures Expressible(g) <==> Plain(g) {
      ExpressibleIffPlain(g);
    }
  }

  ghost predicate FreeOf(s: string, c: char) { c !in s }

  /** Up to a first slash, text splits in one way. */
  lemma SplitAtTheFirst(a: string, b: string, a': string, b': string)
    requires a + "/" + b == a' + "/" + b' && FreeOf(a, '/') && FreeOf(a', '/')
    ensures a == a' && b == b'
  {
    var s := a + "/" + b;
    assert forall i | 0 <= i < |a| :: s[i] == a[i] && a[i] in a;
    assert forall i | 0 <= i < |a'| :: s[i] == a'[i] && a'[i] in a';
    assert s[|a|] == '/' && s[|a'|] == '/';
    assert s[..|a|] == a && s[..|a'|] == a';
    assert s[|a| + 1..] == b && s[|a'| + 1..] == b';
  }

  /** After a last slash, text splits in one way. */
  lemma SplitAtTheLast(a: string, b: string, a': string, b': string)
    requires a + "/" + b == a' + "/" + b' && FreeOf(b, '/') && FreeOf(b', '/')
    ensures a == a' && b == b'
  {
    var s := a + "/" + b;
    assert forall i | |a| < i < |s| :: s[i] == b[i - |a| - 1] && s[i] in b;
    assert forall i | |a'| < i < |s| :: s[i] == b'[i - |a'| - 1] && s[i] in b';
    assert s[|a|] == '/' && s[|a'|] == '/';
    assert s[..|a|] == a && s[..|a'|] == a';
    assert s[|a| + 1..] == b && s[|a'| + 1..] == b';
  }

  lemma NoSlashInWords(s: string)
    requires forall c | c in s :: IsWord(c) || c == ':'
    ensures FreeOf(s, '/')
  {
  }

  lemma RolesHaveNoSlash(s: string)
    requires IsRole(s)
    ensures FreeOf(s, '/')
  {
  }

  /** A permit's id is its key: grants with the same id are for the same team, role and action. */
  lemma IdsAreKeys(g: Grant, h: Grant)
    requires Expressible(g) && Expressible(h)
    ensures GrantId(g) == GrantId(h) <==> SameKey(g, h)
  {
    if GrantId(g) == GrantId(h) {
      var prefix := "grant:";
      assert GrantId(g)[|prefix|..] == g.team + "/" + (g.role + "/" + g.action);
      assert GrantId(h)[|prefix|..] == h.team + "/" + (h.role + "/" + h.action);
      NoSlashInWords(g.team);
      NoSlashInWords(h.team);
      RolesHaveNoSlash(g.role);
      RolesHaveNoSlash(h.role);
      SplitAtTheFirst(g.team, g.role + "/" + g.action, h.team, h.role + "/" + h.action);
      SplitAtTheFirst(g.role, g.action, h.role, h.action);
    }
  }

  function Policies(grants: seq<Grant>): map<string, Policy> { PolicySet(Written(Kept(grants, true))) }

  ghost predicate InForce(policies: map<string, Policy>, p: Permit) {
    p.id in policies && policies[p.id] == Granted(p)
  }

  /** The permit is that of a grant that stands. */
  ghost predicate Standing(grants: seq<Grant>, p: Permit) {
    exists i :: Stands(grants, i) && PermitOf(grants[i]) == p
  }

  /** No grant displaces a guardrail, and none poses as one. */
  lemma {:induction false} GuardrailsStandFirm(grants: seq<Grant>, id: string)
    ensures id in GUARDRAILS ==> id in Policies(grants) && Policies(grants)[id] == GUARDRAILS[id]
    ensures id in Policies(grants) && Policies(grants)[id].Guard? ==> id in GUARDRAILS
  {
    if grants != [] {
      GuardrailsStandFirm(grants[..|grants| - 1], id);
      PoliciesGrow(grants);
      assert GrantId(grants[|grants| - 1])[0] == 'g';
    }
  }

  /** The policy set holds exactly the permits of the grants that stand. */
  lemma {:induction false} StandingGrantsAreInForce(grants: seq<Grant>, p: Permit)
    ensures InForce(Policies(grants), p) <==> Standing(grants, p)
  {
    if grants != [] {
      StandingGrantsAreInForce(grants[..|grants| - 1], p);
      PoliciesGrow(grants);
      StandingGrows(grants, p);
    }
  }

  lemma PoliciesGrow(grants: seq<Grant>)
    requires grants != []
    ensures var front, g := Policies(grants[..|grants| - 1]), grants[|grants| - 1];
            Policies(grants) == if Expressible(g) then front[GrantId(g) := Granted(PermitOf(g))] else front
  {
    var kept, g := Kept(grants[..|grants| - 1], true), grants[|grants| - 1];
    if Expressible(g) {
      assert Written(kept + [g])[..|kept|] == Written(kept);
    } else {
      assert kept + [] == kept;
    }
  }

  /** The last grant stands if it can be expressed, and then those before it with its key no longer do. */
  lemma StandingGrows(grants: seq<Grant>, p: Permit)
    requires grants != []
    ensures var front, g := grants[..|grants| - 1], grants[|grants| - 1];
            Standing(grants, p) <==>
              if Expressible(g) && p.id == GrantId(g) then p == PermitOf(g) else Standing(front, p)
  {
    var n := |grants| - 1;
    var front, g := grants[..n], grants[n];
    forall i | 0 <= i < n && Expressible(g) && Expressible(front[i])
      ensures GrantId(front[i]) == GrantId(g) <==> SameKey(front[i], g)
    {
      IdsAreKeys(front[i], g);
    }
    if Expressible(g) {
      assert Stands(grants, n);
    }
    forall i | Stands(grants, i) && i < n ensures Stands(front, i) && (Expressible(g) ==> GrantId(front[i]) != GrantId(g)) {
      assert forall j | i < j < n :: front[j] == grants[j];
    }
    if Standing(front, p) && !(Expressible(g) && p.id == GrantId(g)) {
      var i :| Stands(front, i) && PermitOf(front[i]) == p;
      assert Stands(grants, i) by {
        assert forall j | i < j < n :: front[j] == grants[j];
      }
    }
  }

  // ---------------------------------------------------------------------------------------------------
  // Entities

  datatype Uid =
    | TeamRole(name: string) | Team(name: string) | Analyst(id: string) | TenantKey(key: string) | Dispute(number: nat)

  type Graph = map<Uid, set<Uid>>

  predicate ParentOf(m: Graph, child: Uid, parent: Uid) { child in m && parent in m[child] }

  /** A chain of parents. */
  ghost predicate Climbs(m: Graph, p: seq<Uid>) {
    p != [] && forall i | 0 <= i < |p| - 1 :: ParentOf(m, p[i], p[i + 1])
  }

  /** Cedar's in: reflexive and transitive. */
  ghost predicate In(m: Graph, a: Uid, b: Uid) {
    exists p :: Climbs(m, p) && p[0] == a && p[|p| - 1] == b
  }

  function Rung(team: string, role: string): Uid { TeamRole(RoleName(team, role)) }

  /** The ladder of some teams: lead above senior above junior. */
  ghost predicate OnTheLadder(teams: seq<string>, child: Uid, parent: Uid) {
    || (exists t :: t in teams && child == Rung(t, LEAD) && parent == Rung(t, SENIOR))
    || (exists t :: t in teams && child == Rung(t, SENIOR) && parent == Rung(t, JUNIOR))
  }

  ghost predicate IsEdge(a: Access, who: Uid, d: Facts, child: Uid, parent: Uid) {
    || OnTheLadder(a.teams, child, parent)
    || (child == who && who.Analyst? && exists mem :: mem in a.members && parent == Rung(mem.team, mem.role))
    || (child == Dispute(d.id) && parent == Team(d.team))
  }

  /** The ladder for every team. */
  method Ladder(teams: seq<string>) returns (m: Graph)
    ensures forall child, parent :: ParentOf(m, child, parent) <==> OnTheLadder(teams, child, parent)
    ensures forall u | u in m :: u.TeamRole? || u.Team?
  {
    m := map[];
    for i := 0 to |teams|
      invariant forall child, parent :: ParentOf(m, child, parent) <==> OnTheLadder(teams[..i], child, parent)
      invariant forall u | u in m :: u.TeamRole? || u.Team?
    {
      var t := teams[i];
      ghost var before := m;
      m := m[Rung(t, LEAD) := {Rung(t, SENIOR)}];
      m := m[Rung(t, SENIOR) := {Rung(t, JUNIOR)}];
      m := m[Rung(t, JUNIOR) := {}];
      m := m[Team(t) := {}];
      OneMoreTeam(before, teams, i);
    }
    assert teams[..|teams|] == teams;
  }

  lemma RungsDiffer(t: string, r: string, t': string, r': string)
    requires IsRole(r) && IsRole(r')
    ensures Rung(t, r) == Rung(t', r') <==> t == t' && r == r'
  {
    RolesHaveNoSlash(r);
    RolesHaveNoSlash(r');
    if Rung(t, r) == Rung(t', r') {
      SplitAtTheLast(t, r, t', r');
    }
  }

  lemma OneMoreTeam(before: Graph, teams: seq<string>, i: nat)
    requires i < |teams|
    requires forall child, parent :: ParentOf(before, child, parent) <==> OnTheLadder(teams[..i], child, parent)
    ensures var t := teams[i];
            var m := before[Rung(t, LEAD) := {Rung(t, SENIOR)}][Rung(t, SENIOR) := {Rung(t, JUNIOR)}]
                           [Rung(t, JUNIOR) := {}][Team(t) := {}];
            forall child, parent :: ParentOf(m, child, parent) <==> OnTheLadder(teams[..i + 1], child, parent)
  {
    var t := teams[i];
    var m := before[Rung(t, LEAD) := {Rung(t, SENIOR)}][Rung(t, SENIOR) := {Rung(t, JUNIOR)}]
                   [Rung(t, JUNIOR) := {}][Team(t) := {}];
    RungsDiffer(t, LEAD, t, SENIOR);
    RungsDiffer(t, LEAD, t, JUNIOR);
    RungsDiffer(t, SENIOR, t, JUNIOR);
    forall child, parent ensures ParentOf(m, child, parent) <==> OnTheLadder(teams[..i + 1], child, parent) {
      LadderGrows(teams, i, child, parent);
      if OnTheLadder(teams[..i], child, parent) {
        LadderOf(teams[..i], t, child, parent);
      }
    }
  }

  lemma LadderGrows(teams: seq<string>, i: nat, child: Uid, parent: Uid)
    requires i < |teams|
    ensures OnTheLadder(teams[..i + 1], child, parent) <==>
            || OnTheLadder(teams[..i], child, parent)
            || (child == Rung(teams[i], LEAD) && parent == Rung(teams[i], SENIOR))
            || (child == Rung(teams[i], SENIOR) && parent == Rung(teams[i], JUNIOR))
  {
    assert teams[..i + 1] == teams[..i] + [teams[i]];
  }

  /** A rung's place on the ladder depends on its own team alone. */
  lemma LadderOf(teams: seq<string>, t: string, child: Uid, parent: Uid)
    requires OnTheLadder(teams, child, parent)
    ensures child == Rung(t, LEAD) ==> parent == Rung(t, SENIOR)
    ensures child == Rung(t, SENIOR) ==> parent == Rung(t, JUNIOR)
    ensures child != Rung(t, JUNIOR) && child != Team(t)
  {
    var other, upper, lower :| other in teams && child == Rung(other, upper) && parent == Rung(other, lower)
      && ((upper == LEAD && lower == SENIOR) || (upper == SENIOR && lower == JUNIOR));
    RungsDiffer(other, upper, t, LEAD);
    RungsDiffer(other, upper, t, SENIOR);
    RungsDiffer(other, upper, t, JUNIOR);
  }

  function Min(x: int, y: int): int { if x <= y then x else y }

  /** The amount a policy reads: capped, and refused below Cedar's range. */
  function AmountRead(amount: int): Result<int, Error> {
    var capped := Min(amount, CEDAR_MAX);
    if capped < CEDAR_MIN then Err(Internal) else Ok(capped)
  }

  /** The caller: an analyst, whose memberships are its parents, or a tenant key, which has none. */
  predicate IsCaller(who: Uid) { who.Analyst? || who.TenantKey? }

  /** The teams an analyst leads. */
  ghost predicate Leads(a: Access, who: Uid, team: string) {
    who.Analyst? && Membership(team, "lead") in a.members
  }

  /** The ladder, the caller with the teams it leads, and the dispute. */
  method Entities(who: Uid, a: Access, d: Facts) returns (m: Graph, leadOf: set<string>, amount: Result<int, Error>)
    requires IsCaller(who)
    ensures amount == AmountRead(d.amount)
    ensures forall child, parent :: ParentOf(m, child, parent) <==> IsEdge(a, who, d, child, parent)
    ensures forall t :: t in leadOf <==> Leads(a, who, t)
  {
    m := Ladder(a.teams);
    var parents: set<Uid> := {};
    leadOf := {};
    if who.Analyst? {
      for i := 0 to |a.members|
        invariant forall u :: u in parents <==> exists j | 0 <= j < i :: u == Rung(a.members[j].team, a.members[j].role)
        invariant forall t :: t in leadOf <==> Membership(t, LEAD) in a.members[..i]
      {
        var mem := a.members[i];
        parents := parents + {Rung(mem.team, mem.role)};
        if mem.role == LEAD {
          leadOf := leadOf + {mem.team};
        }
        assert a.members[..i + 1] == a.members[..i] + [mem];
      }
      assert a.members[..|a.members|] == a.members;
    }
    ghost var ladder := m;
    m := m[who := parents][Dispute(d.id) := {Team(d.team)}];
    amount := AmountRead(d.amount);
    forall child, parent ensures ParentOf(m, child, parent) <==> IsEdge(a, who, d, child, parent) {
      assert ParentOf(ladder, child, parent) <==> OnTheLadder(a.teams, child, parent);
    }
  }

  // ---------------------------------------------------------------------------------------------------
  // Who is in which role

  predicate Above(upper: string, lower: string) {
    (upper == "lead" && lower in ["senior", "junior"]) || (upper == "senior" && lower == "junior")
  }

  /** The caller holds the role in the team, or one above it on the ladder of a team the tenant has. */
  ghost predicate Holds(a: Access, team: string, role: string) {
    exists mem :: mem in a.members && mem.team == team && (mem.role == role || (team in a.teams && Above(mem.role, role)))
  }

  /** Whatever a chain that starts on a rung reaches is that rung or one below it in the same team. */
  lemma {:induction false} ChainsDescendOneLadder(
    a: Access, who: Uid, d: Facts, m: Graph, p: seq<Uid>, mem: Membership, team: string, role: string)
    requires forall child, parent :: ParentOf(m, child, parent) <==> IsEdge(a, who, d, child, parent)
    requires IsCaller(who) && SafeTeam(team) && IsRole(role)
    requires Climbs(m, p) && p[0] == Rung(mem.team, mem.role) && p[|p| - 1] == Rung(team, role)
    ensures mem.team == team && (mem.role == role || (team in a.teams && Above(mem.role, role)))
    decreases |p|
  {
    NoSlashInWords(team);
    RolesHaveNoSlash(role);
    if |p| == 1 {
      RungOfASafeTeam(mem.team, mem.role, team, role);
    } else {
      assert ParentOf(m, p[0], p[1]);
      var t, upper, lower :| t in a.teams && p[0] == Rung(t, upper) && p[1] == Rung(t, lower)
        && ((upper == LEAD && lower == SENIOR) || (upper == SENIOR && lower == JUNIOR));
      assert Climbs(m, p[1..]);
      ChainsDescendOneLadder(a, who, d, m, p[1..], Membership(t, lower), team, role);
      RungOfASafeTeam(mem.team, mem.role, team, upper);
    }
  }

  lemma RungOfASafeTeam(t: string, r: string, team: string, role: string)
    requires SafeTeam(team) && IsRole(role) && Rung(t, r) == Rung(team, role)
    ensures t == team && r == role
  {
    NoSlashInWords(team);
    RolesHaveNoSlash(role);
    var s := RoleName(team, role);
    assert forall i | 0 <= i < |s| && s[i] == '/' :: i == |team| by {
      forall i | 0 <= i < |s| && i != |team| ensures s[i] != '/' {
        assert if i < |team| then s[i] in team else s[i] in role;
      }
    }
    assert RoleName(t, r)[|t|] == '/';
    assert s[..|t|] == t && s[..|team|] == team;
    assert s[|t| + 1..] == r && s[|team| + 1..] == role;
  }

  /** An analyst is in a team's role exactly when a membership is that rung or one above it. */
  lemma InARoleIffHeld(a: Access, who: Uid, d: Facts, m: Graph, team: string, role: string)
    requires forall child, parent :: ParentOf(m, child, parent) <==> IsEdge(a, who, d, child, parent)
    requires IsCaller(who) && SafeTeam(team) && IsRole(role)
    ensures In(m, who, Rung(team, role)) <==> who.Analyst? && Holds(a, team, role)
  {
    if In(m, who, Rung(team, role)) {
      var p :| Climbs(m, p) && p[0] == who && p[|p| - 1] == Rung(team, role);
      assert ParentOf(m, p[0], p[1]);
      var mem :| mem in a.members && p[1] == Rung(mem.team, mem.role);
      assert Climbs(m, p[1..]);
      ChainsDescendOneLadder(a, who, d, m, p[1..], mem, team, role);
    }
    if who.Analyst? && Holds(a, team, role) {
      WhatIsHeldIsReached(a, who, d, m, team, role);
    }
  }

  lemma WhatIsHeldIsReached(a: Access, who: Uid, d: Facts, m: Graph, team: string, role: string)
    requires forall child, parent :: ParentOf(m, child, parent) <==> IsEdge(a, who, d, child, parent)
    requires who.Analyst? && Holds(a, team, role)
    ensures In(m, who, Rung(team, role))
  {
    var mem :| mem in a.members && mem.team == team && (mem.role == role || (team in a.teams && Above(mem.role, role)));
    assert ParentOf(m, who, Rung(team, mem.role));
    if mem.role == role {
      assert Climbs(m, [who, Rung(team, role)]);
    } else {
      assert ParentOf(m, Rung(team, LEAD), Rung(team, SENIOR)) && ParentOf(m, Rung(team, SENIOR), Rung(team, JUNIOR));
      if mem.role == LEAD && role == JUNIOR {
        assert Climbs(m, [who, Rung(team, LEAD), Rung(team, SENIOR), Rung(team, JUNIOR)]);
      } else {
        assert Climbs(m, [who, Rung(team, mem.role), Rung(team, role)]);
      }
    }
  }

  lemma Onward(m: Graph, p: seq<Uid>)
    requires Climbs(m, p)
    ensures |p| == 1 || ParentOf(m, p[0], p[1])
  {
  }

  /** A dispute is in its own team and in no other. */
  lemma InATeamIffItsOwn(a: Access, who: Uid, d: Facts, m: Graph, team: string)
    requires forall child, parent :: ParentOf(m, child, parent) <==> IsEdge(a, who, d, child, parent)
    requires IsCaller(who)
    ensures In(m, Dispute(d.id), Team(team)) <==> team == d.team
  {
    if In(m, Dispute(d.id), Team(team)) {
      var p :| Climbs(m, p) && p[0] == Dispute(d.id) && p[|p| - 1] == Team(team);
      assert ParentOf(m, p[0], p[1]);
      assert Climbs(m, p[1..]);
      Onward(m, p[1..]);
    }
    if team == d.team {
      assert Climbs(m, [Dispute(d.id), Team(team)]);
    }
  }

  // ---------------------------------------------------------------------------------------------------
  // Deciding

  const ISSUE_FINAL_CREDIT := "ISSUE_FINAL_CREDIT"
  const REASSIGN := "reassign"
  const UNRECORDED := "?unrecorded"
  const FOR_PEOPLE := {"compose-email", "upload-attachment", "resend-notice", REASSIGN}

  /** What Cedar is asked about a dispute: the policy set, the entities and their attributes. */
  datatype Question = Question(policies: map<string, Policy>, entities: Graph, leadOf: set<string>, amount: int)

  ghost predicate Applies(p: Permit, q: Question, who: Uid, action: string, d: Facts) {
    && In(q.entities, who, TeamRole(p.role)) && p.action == action && In(q.entities, Dispute(d.id), Team(p.team))
    && (p.limit.Some? ==> q.amount <= p.limit.value)
  }

  /** A guardrail's scope and condition hold of a request about a dispute. */
  predicate Fires(g: Guardrail, q: Question, who: Uid, action: string, d: Facts) {
    match g
    case SodFinalCredit => who.Analyst? && action == ISSUE_FINAL_CREDIT && d.openedBy == who.id
    case SodUnrecordedInvestigator => who.Analyst? && action == ISSUE_FINAL_CREDIT && d.openedBy == UNRECORDED
    case ReassignLeadsOnly => action == REASSIGN && !(who.Analyst? && d.team in q.leadOf)
    case TenantAdmin => false
    case KeysDisputes => who.TenantKey?
    case KeysCreate => false
    case KeysNotPeople => who.TenantKey? && action in FOR_PEOPLE
  }

  ghost predicate GuardFires(q: Question, who: Uid, action: string, d: Facts, forbids: bool) {
    exists id :: id in q.policies && q.policies[id].Guard?
                 && q.policies[id].rule.Forbids() == forbids && Fires(q.policies[id].rule, q, who, action, d)
  }

  ghost predicate SomePermitApplies(q: Question, who: Uid, action: string, d: Facts) {
    exists p :: InForce(q.policies, p) && Applies(p, q, who, action, d)
  }

  /** Cedar allows what some policy permits and none forbids. */
  ghost predicate Allows(q: Question, who: Uid, action: string, d: Facts) {
    && (SomePermitApplies(q, who, action, d) || GuardFires(q, who, action, d, false))
    && !GuardFires(q, who, action, d, true)
  }

  /** A standing grant for this caller, action and team, whatever its limit. */
  ghost predicate Fits(a: Access, i: int, action: string, d: Facts) {
    && Stands(a.grants, i)
    && a.grants[i].team == d.team && Holds(a, a.grants[i].team, a.grants[i].role) && a.grants[i].action == action
  }

  ghost predicate FitsUpTo(a: Access, i: int, action: string, d: Facts, amount: int) {
    Fits(a, i, action, d) && (a.grants[i].limit.Some? ==> amount <= a.grants[i].limit.value)
  }

  /** Some grant lets the caller do this to the dispute: its team, its rung or one above, its action, within its limit. */
  ghost predicate SomeGrantLets(a: Access, action: string, d: Facts, amount: int) {
    exists i :: FitsUpTo(a, i, action, d, amount)
  }

  /** Some permit applies to an analyst exactly when a grant that stands lets it, and to a key never. */
  lemma PermittedIffAGrantLetsIt(a: Access, who: Uid, action: string, d: Facts, q: Question)
    requires IsCaller(who) && q.policies == Policies(a.grants)
    requires forall child, parent :: ParentOf(q.entities, child, parent) <==> IsEdge(a, who, d, child, parent)
    ensures SomePermitApplies(q, who, action, d) <==> who.Analyst? && SomeGrantLets(a, action, d, q.amount)
  {
    forall i | Stands(a.grants, i)
      ensures Applies(PermitOf(a.grants[i]), q, who, action, d) <==> who.Analyst? && FitsUpTo(a, i, action, d, q.amount)
    {
      InARoleIffHeld(a, who, d, q.entities, a.grants[i].team, a.grants[i].role);
      InATeamIffItsOwn(a, who, d, q.entities, a.grants[i].team);
    }
    forall p ensures InForce(q.policies, p) <==> Standing(a.grants, p) {
      StandingGrantsAreInForce(a.grants, p);
    }
    if SomeGrantLets(a, action, d, q.amount) {
      var i :| FitsUpTo(a, i, action, d, q.amount);
      assert Standing(a.grants, PermitOf(a.grants[i]));
      assert InForce(q.policies, PermitOf(a.grants[i]));
    }
  }

  /** What the guardrails refuse: whoever opened the investigation its final credit, and a move by anyone but a lead. */
  ghost predicate Refused(a: Access, who: Uid, action: string, d: Facts) {
    || (who.Analyst? && action == "ISSUE_FINAL_CREDIT" && d.openedBy in [who.id, "?unrecorded"])
    || (action == "reassign" && !Leads(a, who, d.team))
    || (who.TenantKey? && action in ["compose-email", "upload-attachment", "resend-notice", "reassign"])
  }

  /** Whatever the grants, every guardrail is in force. */
  lemma EveryGuardrailIsInForce(grants: seq<Grant>, g: Guardrail) returns (id: string)
    ensures id in Policies(grants) && Policies(grants)[id] == Guard(g)
  {
    id := match g
      case SodFinalCredit => "sod-final-credit"
      case SodUnrecordedInvestigator => "sod-unrecorded-investigator"
      case ReassignLeadsOnly => "reassign-leads-only"
      case TenantAdmin => "tenant-admin"
      case KeysDisputes => "keys-disputes"
      case KeysCreate => "keys-create"
      case KeysNotPeople => "keys-not-people";
    GuardrailsStandFirm(grants, id);
  }

  lemma GuardrailsDecide(a: Access, who: Uid, action: string, d: Facts, q: Question)
    requires IsCaller(who) && q.policies == Policies(a.grants) && forall t :: t in q.leadOf <==> Leads(a, who, t)
    ensures GuardFires(q, who, action, d, true) <==> Refused(a, who, action, d)
    ensures GuardFires(q, who, action, d, false) <==> who.TenantKey?
  {
    forall g: Guardrail | Fires(g, q, who, action, d) ensures GuardFires(q, who, action, d, g.Forbids()) {
      var id := EveryGuardrailIsInForce(a.grants, g);
    }
    assert Refused(a, who, action, d) <==>
           || Fires(SodFinalCredit, q, who, action, d) || Fires(SodUnrecordedInvestigator, q, who, action, d)
           || Fires(ReassignLeadsOnly, q, who, action, d) || Fires(KeysNotPeople, q, who, action, d);
    assert who.TenantKey? <==> Fires(KeysDisputes, q, who, action, d);
  }

  /**
   * The decision about a dispute: an analyst may act exactly when a grant that stands lets it and no guardrail refuses
   * it, a tenant key exactly when no guardrail refuses it.
   */
  lemma AllowedIffLetAndNotRefused(a: Access, who: Uid, action: string, d: Facts, q: Question)
    requires IsCaller(who) && q.policies == Policies(a.grants)
    requires forall child, parent :: ParentOf(q.entities, child, parent) <==> IsEdge(a, who, d, child, parent)
    requires forall t :: t in q.leadOf <==> Leads(a, who, t)
    ensures Allows(q, who, action, d)
       <==> (who.Analyst? ==> SomeGrantLets(a, action, d, q.amount)) && !Refused(a, who, action, d)
  {
    PermittedIffAGrantLetsIt(a, who, action, d, q);
    GuardrailsDecide(a, who, action, d, q);
  }

  ghost predicate FitsAtTheTop(a: Access, action: string, d: Facts) {
    exists i :: Fits(a, i, action, d) && a.grants[i].limit == Some(CEDAR_MAX)
  }

  ghost predicate FitsUnlimited(a: Access, action: string, d: Facts) {
    exists i :: Fits(a, i, action, d) && a.grants[i].limit.None?
  }

  /**
   * Capping the amount honours every limit but one at the very top of the range: an amount beyond the range passes
   * it. Decisions follow the limits exactly unless such an amount meets such a limit and no unlimited grant fits.
   */
  lemma LimitsAreHonouredExceptAtTheTop(a: Access, action: string, d: Facts)
    ensures (SomeGrantLets(a, action, d, Min(d.amount, CEDAR_MAX)) <==> SomeGrantLets(a, action, d, d.amount))
       <==> !(d.amount > CEDAR_MAX && FitsAtTheTop(a, action, d) && !FitsUnlimited(a, action, d))
  {
    if SomeGrantLets(a, action, d, d.amount) {
      var i :| FitsUpTo(a, i, action, d, d.amount);
      assert FitsUpTo(a, i, action, d, Min(d.amount, CEDAR_MAX));
    }
    if FitsAtTheTop(a, action, d) {
      var i :| Fits(a, i, action, d) && a.grants[i].limit == Some(CEDAR_MAX);
      assert FitsUpTo(a, i, action, d, Min(d.amount, CEDAR_MAX));
    }
    if FitsUnlimited(a, action, d) {
      var i :| Fits(a, i, action, d) && a.grants[i].limit.None?;
      assert FitsUpTo(a, i, action, d, d.amount);
    }
  }

  /** With every limit below the top of the range, as the column's check demands, decisions follow the limits as written. */
  lemma LimitsBelowTheTopAreHonoured(a: Access, action: string, d: Facts)
    requires forall g | g in a.grants && g.limit.Some? :: g.limit.value < CEDAR_MAX
    ensures SomeGrantLets(a, action, d, Min(d.amount, CEDAR_MAX)) <==> SomeGrantLets(a, action, d, d.amount)
  {
    LimitsAreHonouredExceptAtTheTop(a, action, d);
    forall i | Fits(a, i, action, d) ensures a.grants[i].limit != Some(CEDAR_MAX) {
      assert a.grants[i] in a.grants;
    }
  }

  /** A concrete tenant whose limit does not hold: a grant at the top of the range lets a larger amount through. */
  lemma ALimitAtTheTopLetsMoreThrough()
    ensures var a := Access(1, ["cards"], [Grant("cards", JUNIOR, "refund", Some(CEDAR_MAX))], [Membership("cards", JUNIOR)]);
            var d := Facts(1, "cards", CEDAR_MAX + 1, "");
            SomeGrantLets(a, "refund", d, Min(d.amount, CEDAR_MAX)) && !SomeGrantLets(a, "refund", d, d.amount)
  {
    var a := Access(1, ["cards"], [Grant("cards", JUNIOR, "refund", Some(CEDAR_MAX))], [Membership("cards", JUNIOR)]);
    var d := Facts(1, "cards", CEDAR_MAX + 1, "");
    assert Membership("cards", JUNIOR) in a.members;
    assert FitsUpTo(a, 0, "refund", d, CEDAR_MAX);
  }

  // ---------------------------------------------------------------------------------------------------
  // The engine

  datatype Cached = Cached(version: int, policies: map<string, Policy>)

  /** Which grants a tenant had at each of its policy versions. */
  type Publication = (nat, int) -> seq<Grant>

  class Engine {
    var sets: map<nat, Cached>
    ghost const published: Publication

    constructor (ghost published: Publication)
      ensures this.published == published && Valid()
    {
      sets, this.published := map[], published;
    }

    /** Every cached set is the one its version's grants compile to. */
    ghost predicate Valid()
      reads this
    {
      forall tenant | tenant in sets :: sets[tenant].policies == Policies(published(tenant, sets[tenant].version))
    }

    /** The cached set if its version is current, and otherwise the set compiled anew; the caller cannot tell which. */
    method PolicySetOf(tenant: nat, a: Access) returns (policies: map<string, Policy>)
      requires Valid() && a.grants == published(tenant, a.version)
      modifies this
      ensures Valid() && policies == Policies(a.grants)
    {
      if tenant in sets && sets[tenant].version == a.version {
        return sets[tenant].policies;
      }
      var permits, skipped := Compile(a);
      policies := GUARDRAILS;
      for i := 0 to |permits|
        invariant policies == PolicySet(permits[..i])
        invariant sets == old(sets)
      {
        assert permits[..i + 1][..i] == permits[..i];
        policies := policies[permits[i].id := Granted(permits[i])];
      }
      assert permits[..|permits|] == permits;
      sets := sets[tenant := Cached(a.version, policies)];
    }

    /** What a request about a dispute comes down to; an amount Cedar cannot hold is an error, which denies. */
    method Ask(tenant: nat, who: Uid, a: Access, action: string, d: Facts) returns (q: Result<Question, Error>)
      requires Valid() && IsCaller(who) && a.grants == published(tenant, a.version)
      modifies this
      ensures Valid()
      ensures q.Ok? <==> d.amount >= -9_223_372_036_854_775_808
      ensures q.Ok? ==>
        var lets := who.Analyst? ==> SomeGrantLets(a, action, d, Min(d.amount, 9_223_372_036_854_775_807));
        (Allows(q.value, who, action, d) <==> lets && !Refused(a, who, action, d))
    {
      var policies := PolicySetOf(tenant, a);
      var m, leadOf, amount := Entities(who, a, d);
      if amount.Err? {
        return Err(amount.error);
      }
      q := Ok(Question(policies, m, leadOf, amount.value));
      AllowedIffLetAndNotRefused(a, who, action, d, q.value);
    }
  }
}
