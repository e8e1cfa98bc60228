/** Retrying within a team and escalating to the next one terminates. */
module Escalation {
  import opened Text
  import opened Crm
  import opened Selectors
  import opened Strategies
  import opened Distribution

  /** The order values of the active teams a lead can still escalate to. */
  function OrdersAbove(teams: seq<Team>, company: nat, order: int): set<int> {
    set t | t in teams && Above(t, company, order) :: t.order
  }

  function RowsFor(history: seq<Assignment>, id: nat): nat {
    if history == [] then 0
    else
      var n := |history| - 1;
      RowsFor(history[..n], id) + (if history[n].lead == id then 1 else 0)
  }

  predicate HasTeam(db: Db, id: nat) {
    id < |db.leads| && db.leads[id].id == id
    && db.leads[id].owner.team.Some? && db.leads[id].owner.team.value < |db.teams|
  }

  function TeamsLeft(db: Db, id: nat): nat
    requires id < |db.leads|
  {
    |OrdersAbove(db.teams, db.leads[id].company, OrderOf(db, db.leads[id].owner.team))|
  }

  function RetriesLeft(db: Db, id: nat, n: nat): nat
    requires id < |db.leads|
  {
    var used := AttemptCount(db, id, db.leads[id].owner.team);
    if used < n then n - used else 0
  }

  /** Distribution is confined to the team it is asked for. */
  predicate TeamScoped(policy: Policy, n: nat) {
    policy.scope != ALL_SALESMEN && policy.attempts == n
  }

  /** The expiry left the lead with its owner and told the distributors. */
  predicate LeftToDistributors(db: Db, after: Db, id: nat) {
    && after.leads == db.leads && after.history == db.history && after.attempts == db.attempts
    && after.notices == db.notices + [ManualRequired(id)]
  }

  /** The expiry reassigned the lead, and (teams left, retries left) went down
      lexicographically. */
  predicate Progressed(db: Db, after: Db, id: nat, n: nat) {
    && id < |db.leads|
    && HasTeam(after, id)
    && RowsFor(after.history, id) == RowsFor(db.history, id) + 1
    && (|| TeamsLeft(after, id) < TeamsLeft(db, id)
        || (TeamsLeft(after, id) == TeamsLeft(db, id) && RetriesLeft(after, id, n) < RetriesLeft(db, id, n)))
  }

  lemma NextTeamShrinks(teams: seq<Team>, company: nat, order: int)
    ensures var next := NextTeam(teams, company, order);
      next.Some? ==>
        |OrdersAbove(teams, company, teams[next.value].order)| < |OrdersAbove(teams, company, order)|
  {
    var next := NextTeam(teams, company, order);
    if next.Some? {
      var o := teams[next.value].order;
      assert teams[next.value] in teams;
      assert o in OrdersAbove(teams, company, order);
      assert OrdersAbove(teams, company, o) == OrdersAbove(teams, company, order) - {o} by {
        forall x
          ensures x in OrdersAbove(teams, company, o) <==> x in OrdersAbove(teams, company, order) && x != o
        {
          if x in OrdersAbove(teams, company, order) && x != o {
            var i :| 0 <= i < |teams| && Above(teams[i], company, order) && teams[i].order == x;
            assert teams[i] in teams && Above(teams[i], company, o);
          }
        }
      }
    }
  }

  lemma RetryStaysInTeam(db: Db, lead: Lead)
    ensures forall m :: m in RetryPool(db, lead) ==>
      m.team < |db.teams| && (lead.owner.team.Some? ==> Some(m.team) == lead.owner.team)
  {
    PreferExact(EligiblePool(db, lead.company, lead.language, TEAM_THEN_SALESMAN, lead.owner.team),
      lead.owner.salesman);
    PoolExact(db, lead.company, lead.language, TEAM_THEN_SALESMAN, lead.owner.team);
  }

  lemma AttemptCounted(db: Db, after: Db, a: Attempt)
    requires after.attempts == db.attempts + [a]
    ensures AttemptCount(after, a.lead, Some(a.team)) == AttemptCount(db, a.lead, Some(a.team)) + 1
  {
    assert after.attempts[..|after.attempts| - 1] == db.attempts;
  }

  lemma AssignmentCounted(db: Db, id: nat, to: Owner, kind: Kind, strategy: Option<Strategy>, env: Env)
    requires id < |db.leads|
    ensures RowsFor(Assign(db, id, to, kind, strategy, env).history, id) == RowsFor(db.history, id) + 1
  {
    var after := Assign(db, id, to, kind, strategy, env);
    assert after.history[..|after.history| - 1] == db.history;
  }

  lemma RetryProgresses(db: Db, id: nat, n: nat, env: Env)
    requires HasTeam(db, id)
    requires AttemptCount(db, id, db.leads[id].owner.team) < n
    ensures var lead := db.leads[id];
      var after := RetryWithinTeam(db, lead, AttemptCount(db, id, lead.owner.team) + 1, env);
      LeftToDistributors(db, after, id) || Progressed(db, after, id, n)
  {
    var lead := db.leads[id];
    var count := AttemptCount(db, id, lead.owner.team);
    var pool := RetryPool(db, lead);
    RetryStaysInTeam(db, lead);
    if pool != [] {
      var member := pool[count % |pool|];
      assert member in pool;
      var noted := db.(attempts := db.attempts + [Attempt(id, member.team, member.user, count + 1)]);
      var to := Owner(Some(member.team), Some(member.user));
      var after := Assign(noted, id, to, RETRY, None, env);
      AttemptCounted(db, after, Attempt(id, member.team, member.user, count + 1));
      AssignmentCounted(noted, id, to, RETRY, None, env);
      assert TeamsLeft(after, id) == TeamsLeft(db, id);
      assert RetryWithinTeam(db, lead, count + 1, env) == after;
    }
  }

  lemma ScopedPoolInTeam(db: Db, lead: Lead, policy: Policy, team: nat)
    requires policy.scope != ALL_SALESMEN
    ensures forall m :: m in RunPool(db, lead, policy, Some(team)) ==> m.team == team
  {
    PreferExact(EligiblePool(db, lead.company, lead.language, policy.scope, Some(team)), lead.owner.salesman);
    PoolExact(db, lead.company, lead.language, policy.scope, Some(team));
  }

  lemma AssigningCounted(db: Db, after: Db, lead: Lead, policy: Policy, team: Option<nat>)
    requires lead.id < |db.leads| && |after.runs| == |db.runs| + 1
    requires Assigns(db, after, lead, policy, team)
    ensures RowsFor(after.history, lead.id) == RowsFor(db.history, lead.id) + 1
  {
    assert after.history[..|after.history| - 1] == db.history;
  }

  /** Moving a lead to the next team leaves fewer teams above it. */
  lemma MovingUpProgresses(db: Db, after: Db, id: nat, n: nat, policy: Policy, next: nat)
    requires HasTeam(db, id) && |after.runs| == |db.runs| + 1 && policy.scope != ALL_SALESMEN
    requires NextTeam(db.teams, db.leads[id].company, OrderOf(db, db.leads[id].owner.team)) == Some(next)
    requires Assigns(db, after, db.leads[id], policy, Some(next)) && after.teams == db.teams
    requires after.leads[id] == db.leads[id].(owner := after.leads[id].owner)
    ensures Progressed(db, after, id, n)
  {
    var lead := db.leads[id];
    ScopedPoolInTeam(db, lead, policy, next);
    assert after.leads[id].owner.team == Some(next);
    NextTeamShrinks(db.teams, lead.company, OrderOf(db, lead.owner.team));
    AssigningCounted(db, after, lead, policy, Some(next));
  }

  lemma EscalationProgresses(db: Db, id: nat, n: nat, policy: Policy, env: Env)
    requires HasTeam(db, id) && policy.scope != ALL_SALESMEN
    ensures var after := EscalateNextTeam(db, db.leads[id], policy, env);
      LeftToDistributors(db, after, id) || Progressed(db, after, id, n)
  {
    var lead := db.leads[id];
    var next := NextTeam(db.teams, lead.company, OrderOf(db, lead.owner.team));
    if lead.origin == DIRECT && next.Some? {
      var after := Distribute(db, lead, policy, None, next, env);
      assert EscalateNextTeam(db, lead, policy, env) == after;
      DistributeOutcome(db, lead, policy, None, next, env);
      DistributeFrame(db, lead, policy, None, next, env);
      if Assigns(db, after, lead, policy, next) {
        MovingUpProgresses(db, after, id, n, policy, next.value);
      }
    }
  }

  /** One expiry of a lead that has a team. */
  lemma ExpiryProgresses(db: Db, id: nat, n: nat, policy: Policy, env: Env)
    requires HasTeam(db, id) && TeamScoped(policy, n)
    ensures var after := HandleExpiry(db, db.leads[id], policy, env);
      LeftToDistributors(db, after, id) || Progressed(db, after, id, n)
  {
    if AttemptCount(db, id, db.leads[id].owner.team) < n {
      RetryProgresses(db, id, n, env);
    } else {
      EscalationProgresses(db, id, n, policy, env);
    }
  }

  // ---- The bound over a run ----

  datatype Event =
    | Expiry(lead: nat, policy: Policy, env: Env)
    | Roster(users: seq<User>, members: seq<Member>)

  predicate Allowed(db: Db, e: Event) {
    e.Expiry? ==> e.lead < |db.leads|
  }

  predicate AllScoped(events: seq<Event>, n: nat) {
    forall k :: 0 <= k < |events| && events[k].Expiry? ==> TeamScoped(events[k].policy, n)
  }

  /** Expiries of any leads, each read afresh, while availability and team
      membership change freely; the teams themselves are fixed. */
  function After(db: Db, e: Event): Db
    requires e.Expiry? ==> e.lead < |db.leads| && db.leads[e.lead].id == e.lead
  {
    match e
    case Expiry(lead, policy, env) => HandleExpiry(db, db.leads[lead], policy, env)
    case Roster(users, members) => db.(users := users, members := members)
  }

  predicate OwnIds(db: Db) {
    forall i :: 0 <= i < |db.leads| ==> db.leads[i].id == i
  }

  predicate IsRun(trace: seq<Db>, events: seq<Event>) {
    && |trace| == |events| + 1
    && (forall k :: 0 <= k < |trace| ==> OwnIds(trace[k]))
    && (forall k :: 0 <= k < |events| ==> Allowed(trace[k], events[k]) && trace[k + 1] == After(trace[k], events[k]))
  }

  /** Each escalation can be followed by at most `n` retries. */
  function Potential(db: Db, id: nat, n: nat): nat
    requires id < |db.leads|
  {
    TeamsLeft(db, id) * (n + 1) + RetriesLeft(db, id, n)
  }

  lemma LexicographicDrop(a: nat, b: nat, p: nat, q: nat, n: nat)
    requires p <= n && (a < b || (a == b && p < q))
    ensures a * (n + 1) + p < b * (n + 1) + q
  {
    if a < b {
      var d := b - a - 1;
      assert b * (n + 1) == a * (n + 1) + (n + 1) + d * (n + 1);
    }
  }

  lemma PotentialDrops(db: Db, after: Db, id: nat, n: nat)
    requires Progressed(db, after, id, n)
    ensures Potential(after, id, n) < Potential(db, id, n)
  {
    LexicographicDrop(TeamsLeft(after, id), TeamsLeft(db, id), RetriesLeft(after, id, n), RetriesLeft(db, id, n), n);
  }

  /** What an expiry of another lead keeps of this one. */
  predicate RecordKept(db: Db, after: Db, id: nat)
    requires id < |db.leads|
  {
    && |after.leads| == |db.leads| && after.leads[id] == db.leads[id]
    && RowsFor(after.history, id) == RowsFor(db.history, id)
    && AttemptCount(after, id, db.leads[id].owner.team) == AttemptCount(db, id, db.leads[id].owner.team)
    && after.teams == db.teams
  }

  lemma RetryFrame(db: Db, lead: Lead, number: nat, env: Env, id: nat)
    requires lead.id < |db.leads| && id < |db.leads| && id != lead.id && number > 0
    ensures RecordKept(db, RetryWithinTeam(db, lead, number, env), id)
  {
    var after := RetryWithinTeam(db, lead, number, env);
    if RetryPool(db, lead) != [] {
      assert after.history[..|after.history| - 1] == db.history;
      assert after.attempts[..|after.attempts| - 1] == db.attempts;
    }
  }

  lemma EscalationFrame(db: Db, lead: Lead, policy: Policy, env: Env, id: nat)
    requires lead.id < |db.leads| && id < |db.leads| && id != lead.id
    ensures RecordKept(db, EscalateNextTeam(db, lead, policy, env), id)
  {
    var next := NextTeam(db.teams, lead.company, OrderOf(db, lead.owner.team));
    if lead.origin == DIRECT && next.Some? {
      var after := Distribute(db, lead, policy, None, next, env);
      DistributeOutcome(db, lead, policy, None, next, env);
      DistributeFrame(db, lead, policy, None, next, env);
      if Assigns(db, after, lead, policy, next) {
        assert after.history[..|after.history| - 1] == db.history;
      }
    }
  }

  /** An expiry of another lead, too, keeps this lead's record. */
  lemma ExpiryFrame(db: Db, lead: Lead, policy: Policy, env: Env, id: nat)
    requires lead.id < |db.leads| && id < |db.leads| && id != lead.id
    ensures RecordKept(db, HandleExpiry(db, lead, policy, env), id)
  {
    if AttemptCount(db, lead.id, lead.owner.team) < policy.attempts {
      RetryFrame(db, lead, AttemptCount(db, lead.id, lead.owner.team) + 1, env, id);
    } else {
      EscalationFrame(db, lead, policy, env, id);
    }
  }

  lemma StepBound(db: Db, e: Event, id: nat, n: nat)
    requires HasTeam(db, id) && OwnIds(db) && Allowed(db, e)
    requires e.Expiry? ==> TeamScoped(e.policy, n)
    ensures var after := After(db, e);
      && HasTeam(after, id)
      && RowsFor(after.history, id) + Potential(after, id, n) <= RowsFor(db.history, id) + Potential(db, id, n)
  {
    var after := After(db, e);
    match e {
      case Expiry(lead, policy, env) =>
        if lead == id {
          ExpiryProgresses(db, id, n, policy, env);
          ExpiryKeepsTeams(db, db.leads[id], policy, env);
          if Progressed(db, after, id, n) {
            PotentialDrops(db, after, id, n);
          }
        } else {
          ExpiryFrame(db, db.leads[lead], policy, env, id);
        }
      case Roster(_, _) =>
    }
  }

  lemma ExpiryKeepsTeams(db: Db, lead: Lead, policy: Policy, env: Env)
    requires lead.id < |db.leads|
    ensures HandleExpiry(db, lead, policy, env).teams == db.teams
  {
    var next := NextTeam(db.teams, lead.company, OrderOf(db, lead.owner.team));
    if next.Some? {
      DistributeFrame(db, lead, policy, None, next, env);
    }
  }

  lemma {:induction false} RunBound(trace: seq<Db>, events: seq<Event>, k: nat, id: nat, n: nat)
    requires IsRun(trace, events) && AllScoped(events, n) && HasTeam(trace[0], id) && k < |trace|
    ensures HasTeam(trace[k], id)
    ensures RowsFor(trace[k].history, id) + Potential(trace[k], id, n)
         <= RowsFor(trace[0].history, id) + Potential(trace[0], id, n)
  {
    if k > 0 {
      RunBound(trace, events, k - 1, id, n);
      StepBound(trace[k - 1], events[k - 1], id, n);
    }
  }

  /** With `teams` order values left and `n` retries a team, a lead is
      reassigned at most teams + n * (teams + 1) times, in any run. */
  lemma ReassignmentsBounded(trace: seq<Db>, events: seq<Event>, k: nat, id: nat, n: nat)
    requires IsRun(trace, events) && AllScoped(events, n) && HasTeam(trace[0], id) && k < |trace|
    ensures var teams := TeamsLeft(trace[0], id);
      RowsFor(trace[k].history, id) - RowsFor(trace[0].history, id) <= teams + n * (teams + 1)
  {
    RunBound(trace, events, k, id, n);
    var teams := TeamsLeft(trace[0], id);
    assert teams * (n + 1) + n == teams + n * (teams + 1);
  }

  // ---- Exactly what an expiry does ----

  /** Somebody available in the team (of the lead's language), as the scope has
      it. */
  ghost predicate SomebodyIn(db: Db, lead: Lead, scope: Scope, team: Option<nat>) {
    exists m :: m in db.members && Eligible(db, m, lead.company, lead.language, scope, team)
  }

  /** Nothing is done for the lead but to tell the distributors. */
  predicate OnlyNotifies(db: Db, after: Db, id: nat) {
    && (after.leads, after.history, after.attempts, after.slas) == (db.leads, db.history, db.attempts, db.slas)
    && after.notices == db.notices + [ManualRequired(id)]
  }

  /** A retry: the attempt with its number, and the hand-over to its salesman. */
  predicate Retried(db: Db, after: Db, id: nat, m: Member, number: nat, env: Env) {
    && HandedOver(db, after, id, Owner(Some(m.team), Some(m.user)), RETRY, env)
    && after.attempts == db.attempts + [Attempt(id, m.team, m.user, number)]
    && after.notices == db.notices + [Assigned(id, m.user)]
    && after.runs == db.runs
  }

  lemma RetryPoolEmptyIff(db: Db, lead: Lead)
    ensures RetryPool(db, lead) == [] <==> !SomebodyIn(db, lead, TEAM_THEN_SALESMAN, lead.owner.team)
    ensures forall m :: m in RetryPool(db, lead) ==>
      m in db.members && Eligible(db, m, lead.company, lead.language, TEAM_THEN_SALESMAN, lead.owner.team)
  {
    var all := EligiblePool(db, lead.company, lead.language, TEAM_THEN_SALESMAN, lead.owner.team);
    PoolExact(db, lead.company, lead.language, TEAM_THEN_SALESMAN, lead.owner.team);
    PreferExact(all, lead.owner.salesman);
    if m :| m in db.members && Eligible(db, m, lead.company, lead.language, TEAM_THEN_SALESMAN, lead.owner.team) {
      assert m in all;
    }
    if all != [] {
      assert all[0] in all;
    }
  }

  /** While retries are left, an expiry is a retry numbered on, by somebody
      available in the team, or, exactly if there is nobody, a notice. */
  lemma RetryBranch(db: Db, lead: Lead, policy: Policy, env: Env) returns (m: Member)
    requires lead.id < |db.leads|
    requires AttemptCount(db, lead.id, lead.owner.team) < policy.attempts
    ensures var after := HandleExpiry(db, lead, policy, env);
      if SomebodyIn(db, lead, TEAM_THEN_SALESMAN, lead.owner.team) then
        && m in db.members && Eligible(db, m, lead.company, lead.language, TEAM_THEN_SALESMAN, lead.owner.team)
        && Retried(db, after, lead.id, m, AttemptCount(db, lead.id, lead.owner.team) + 1, env)
      else OnlyNotifies(db, after, lead.id) && after.runs == db.runs
  {
    var count := AttemptCount(db, lead.id, lead.owner.team);
    var pool := RetryPool(db, lead);
    RetryPoolEmptyIff(db, lead);
    if pool != [] {
      m := pool[count % |pool|];
      assert m in pool;
    } else {
      m := Member(0, 0, false);
    }
  }

  /** Nobody can take over: a broker's lead, no active team of the company above
      the lead's, nobody available in the next one, or a strategy that declines. */
  ghost predicate NobodyAbove(db: Db, lead: Lead, policy: Policy) {
    || lead.origin == BROKER
    || (forall i :: 0 <= i < |db.teams| ==>
          !(db.teams[i].company == lead.company && db.teams[i].active
            && db.teams[i].order > OrderOf(db, lead.owner.team)))
    || !SomebodyIn(db, lead, policy.scope, NextTeam(db.teams, lead.company, OrderOf(db, lead.owner.team)))
    || policy.auto == Other(None)
  }

  /** The least active team above the lead's. */
  predicate LeastAbove(db: Db, lead: Lead, team: nat) {
    && team < |db.teams| && Above(db.teams[team], lead.company, OrderOf(db, lead.owner.team))
    && forall i :: 0 <= i < |db.teams| && Above(db.teams[i], lead.company, OrderOf(db, lead.owner.team)) ==>
         db.teams[team].order <= db.teams[i].order
  }

  lemma NextTeamNoneIff(db: Db, lead: Lead)
    ensures NextTeam(db.teams, lead.company, OrderOf(db, lead.owner.team)) == None <==>
      forall i :: 0 <= i < |db.teams| ==>
        !(db.teams[i].company == lead.company && db.teams[i].active
          && db.teams[i].order > OrderOf(db, lead.owner.team))
  {
    var next := NextTeam(db.teams, lead.company, OrderOf(db, lead.owner.team));
    if next == None {
      forall i | 0 <= i < |db.teams|
        ensures !(db.teams[i].company == lead.company && db.teams[i].active
                  && db.teams[i].order > OrderOf(db, lead.owner.team))
      {
        assert !Above(db.teams[i], lead.company, OrderOf(db, lead.owner.team));
      }
    }
  }

  /** The lead was handed over, into `team` if distribution is confined to it. */
  predicate GivenIn(db: Db, after: Db, lead: Lead, policy: Policy, team: nat) {
    && lead.id < |db.leads| == |after.leads| && |after.history| == |db.history| + 1
    && after.leads[lead.id].owner == after.history[|db.history|].to
    && (policy.scope != ALL_SALESMEN ==> after.leads[lead.id].owner.team == Some(team))
  }

  lemma RunInTeam(db: Db, lead: Lead, policy: Policy, team: nat, env: Env)
    requires lead.id < |db.leads|
    requires SomebodyIn(db, lead, policy.scope, Some(team)) && policy.auto != Other(None)
    ensures GivenIn(db, Distribute(db, lead, policy, None, Some(team), env), lead, policy, team)
  {
    DistributeOutcome(db, lead, policy, None, Some(team), env);
    DistributeFollowsTables(db, lead, policy, None, Some(team), env);
    if policy.scope != ALL_SALESMEN {
      ScopedPoolInTeam(db, lead, policy, team);
    }
  }

  lemma NoRunInTeam(db: Db, lead: Lead, policy: Policy, team: nat, env: Env)
    requires lead.id < |db.leads|
    requires !SomebodyIn(db, lead, policy.scope, Some(team)) || policy.auto == Other(None)
    ensures OnlyNotifies(db, Distribute(db, lead, policy, None, Some(team), env), lead.id)
  {
    DistributeOutcome(db, lead, policy, None, Some(team), env);
    DistributeFollowsTables(db, lead, policy, None, Some(team), env);
    DistributeFrame(db, lead, policy, None, Some(team), env);
    DistributeEffects(db, lead, policy, None, Some(team), env);
    DeclinedRun(db, lead, policy, Some(team), env);
  }

  /** Past its retries, a lead is left to the distributors exactly if nobody can
      take over; otherwise it is handed to an available member, of the least
      team above if distribution is confined to a team. */
  lemma EscalationBranch(db: Db, lead: Lead, policy: Policy, env: Env)
    requires lead.id < |db.leads|
    requires AttemptCount(db, lead.id, lead.owner.team) >= policy.attempts
    ensures var after := HandleExpiry(db, lead, policy, env);
      && after.attempts == db.attempts
      && (NobodyAbove(db, lead, policy) <==> OnlyNotifies(db, after, lead.id))
      && (!NobodyAbove(db, lead, policy) ==>
            exists team: nat :: LeastAbove(db, lead, team) && GivenIn(db, after, lead, policy, team))
  {
    var next := NextTeam(db.teams, lead.company, OrderOf(db, lead.owner.team));
    NextTeamNoneIff(db, lead);
    if lead.origin == DIRECT && next.Some? {
      var after := Distribute(db, lead, policy, None, next, env);
      assert HandleExpiry(db, lead, policy, env) == after;
      DistributeFrame(db, lead, policy, None, next, env);
      assert LeastAbove(db, lead, next.value);
      if SomebodyIn(db, lead, policy.scope, next) && policy.auto != Other(None) {
        RunInTeam(db, lead, policy, next.value, env);
      } else {
        NoRunInTeam(db, lead, policy, next.value, env);
      }
    }
  }

  /** A strategy that never decides never assigns. */
  lemma DeclinedRun(db: Db, lead: Lead, policy: Policy, team: Option<nat>, env: Env)
    requires lead.id < |db.leads|
    ensures var after := Distribute(db, lead, policy, None, team, env);
      policy.auto == Other(None) ==> |after.runs| == |db.runs| + 1 && after.runs[|db.runs|].status == NO_CANDIDATE
  {}

  /** A lead without a team can go to every active team of the company whose
      order is not negative. */
  lemma TeamlessAbove(db: Db, t: Team, company: nat)
    ensures Above(t, company, OrderOf(db, None)) <==> t.company == company && t.active && t.order >= 0
  {}

  // ---- Whom a retry chooses ----

  /** Retry number k of an unchanged pool goes to its k-th member, and the count
      starts over after the last. */
  lemma RetryRotates(db: Db, lead: Lead, number: nat, env: Env)
    requires lead.id < |db.leads| && RetryPool(db, lead) != [] && number > 0
    ensures var pool := RetryPool(db, lead);
      && (number <= |pool| ==>
            RetryWithinTeam(db, lead, number, env).leads[lead.id].owner
              == Owner(Some(pool[number - 1].team), Some(pool[number - 1].user)))
      && RetryWithinTeam(db, lead, number + |pool|, env).leads[lead.id].owner
           == RetryWithinTeam(db, lead, number, env).leads[lead.id].owner
  {
    var n := |RetryPool(db, lead)|;
    if number <= n {
      SmallModulus(number - 1, n);
    }
    Periodic(number - 1, n);
  }

  lemma Periodic(k: nat, n: nat)
    requires n > 0
    ensures (k + n) % n == k % n
  {
    var q, r := k / n, k % n;
    assert k + n == (q + 1) * n + r;
    UniqueRemainder(k + n, n, q + 1, r);
  }

  lemma UniqueRemainder(x: nat, n: nat, q: nat, r: nat)
    requires r < n && x == q * n + r
    ensures x % n == r
  {
    assert x == (x / n) * n + x % n;
    MultipleIsFar(x / n - q, n);
    assert (x / n - q) * n == r - x % n;
  }

  lemma MultipleIsFar(d: int, n: nat)
    ensures d > 0 ==> d * n >= n
    ensures d < 0 ==> d * n <= 0 - n
  {}

  // ---- Attempt numbers ----

  /** The attempts of each lead in each team are numbered 1, 2, and so on. */
  ghost predicate Numbered(db: Db) {
    forall lead: nat, team: nat :: CountsUp(AttemptNumbers(db.attempts, lead, Some(team)))
  }

  /** Adding one attempt keeps the numbering exactly if it has the next number. */
  lemma AttemptKeepsNumbering(db: Db, after: Db, a: Attempt)
    requires Numbered(db) && after.attempts == db.attempts + [a]
    ensures Numbered(after) <==> a.number == AttemptCount(db, a.lead, Some(a.team)) + 1
  {
    assert after.attempts[..|after.attempts| - 1] == db.attempts;
    forall lead: nat, team: nat
      ensures AttemptNumbers(after.attempts, lead, Some(team)) ==
        AttemptNumbers(db.attempts, lead, Some(team)) + (if lead == a.lead && team == a.team then [a.number] else [])
    {
    }
    assert CountsUp(AttemptNumbers(db.attempts, a.lead, Some(a.team)));
    if Numbered(after) {
      var numbers := AttemptNumbers(after.attempts, a.lead, Some(a.team));
      assert CountsUp(numbers) && numbers[|numbers| - 1] == a.number;
    } else {
      var lead: nat, team: nat :| !CountsUp(AttemptNumbers(after.attempts, lead, Some(team)));
      assert CountsUp(AttemptNumbers(db.attempts, lead, Some(team)));
    }
  }

  /** A retry of a copy without a team is numbered 1 whatever team it lands in:
      there must be no retry, or no attempt in that team yet. */
  predicate NumbersOn(db: Db, lead: Lead, policy: Policy) {
    || lead.owner.team.Some?
    || policy.attempts <= 0
    || RetryPool(db, lead) == []
    || AttemptCount(db, lead.id, Some(RetryPool(db, lead)[0].team)) == 0
  }

  lemma RetryAddsAttempt(db: Db, lead: Lead, number: nat, env: Env) returns (a: Attempt)
    requires lead.id < |db.leads| && number > 0 && RetryPool(db, lead) != []
    ensures var pool := RetryPool(db, lead);
      var m := pool[(number - 1) % |pool|];
      a == Attempt(lead.id, m.team, m.user, number)
    ensures RetryWithinTeam(db, lead, number, env).attempts == db.attempts + [a]
    ensures lead.owner.team.Some? ==> Some(a.team) == lead.owner.team
  {
    var pool := RetryPool(db, lead);
    var m := pool[(number - 1) % |pool|];
    assert m in pool;
    RetryStaysInTeam(db, lead);
    a := Attempt(lead.id, m.team, m.user, number);
  }

  lemma RetryKeepsNumbering(db: Db, lead: Lead, env: Env)
    requires Numbered(db) && lead.id < |db.leads| && RetryPool(db, lead) != []
    ensures var count := AttemptCount(db, lead.id, lead.owner.team);
      Numbered(RetryWithinTeam(db, lead, count + 1, env)) <==>
        lead.owner.team.Some? || AttemptCount(db, lead.id, Some(RetryPool(db, lead)[0].team)) == 0
  {
    var count := AttemptCount(db, lead.id, lead.owner.team);
    var a := RetryAddsAttempt(db, lead, count + 1, env);
    AttemptKeepsNumbering(db, RetryWithinTeam(db, lead, count + 1, env), a);
    if lead.owner.team == None {
      NoAttemptWithoutTeam(db.attempts, lead.id);
      assert count == 0;
    }
  }

  /** Exactly when an expiry keeps the numbering, for any copy, stale or not. */
  lemma ExpiryKeepsNumbering(db: Db, lead: Lead, policy: Policy, env: Env)
    requires Numbered(db) && lead.id < |db.leads|
    ensures Numbered(HandleExpiry(db, lead, policy, env)) <==> NumbersOn(db, lead, policy)
  {
    var after := HandleExpiry(db, lead, policy, env);
    if lead.owner.team == None {
      NoAttemptWithoutTeam(db.attempts, lead.id);
    }
    if AttemptCount(db, lead.id, lead.owner.team) < policy.attempts && RetryPool(db, lead) != [] {
      RetryKeepsNumbering(db, lead, env);
    } else {
      var next := NextTeam(db.teams, lead.company, OrderOf(db, lead.owner.team));
      if next.Some? {
        DistributeFrame(db, lead, policy, None, next, env);
      }
      assert after.attempts == db.attempts;
    }
  }

  predicate EventNumbersOn(db: Db, e: Event)
    requires Allowed(db, e)
  {
    e.Expiry? ==> NumbersOn(db, db.leads[e.lead], e.policy)
  }

  lemma EventKeepsNumbering(db: Db, e: Event)
    requires Numbered(db) && OwnIds(db) && Allowed(db, e)
    ensures Numbered(After(db, e)) <==> EventNumbersOn(db, e)
  {
    match e {
      case Expiry(lead, policy, env) => ExpiryKeepsNumbering(db, db.leads[lead], policy, env);
      case Roster(_, _) => assert After(db, e).attempts == db.attempts;
    }
  }

  lemma {:induction false} RunKeepsNumbering(trace: seq<Db>, events: seq<Event>, k: nat)
    requires IsRun(trace, events) && Numbered(trace[0]) && k < |trace|
    requires forall j :: 0 <= j < |events| ==> EventNumbersOn(trace[j], events[j])
    ensures Numbered(trace[k])
  {
    if k > 0 {
      RunKeepsNumbering(trace, events, k - 1);
      EventKeepsNumbering(trace[k - 1], events[k - 1]);
    }
  }

  /** Over a run, whatever the scopes, the attempts of each lead in each team
      stay numbered 1, 2, and so on exactly if every expiry numbers on. */
  lemma RunKeepsNumberingIff(trace: seq<Db>, events: seq<Event>)
    requires IsRun(trace, events) && Numbered(trace[0])
    ensures (forall k :: 0 <= k < |trace| ==> Numbered(trace[k])) <==>
      (forall j :: 0 <= j < |events| ==> EventNumbersOn(trace[j], events[j]))
  {
    if forall j :: 0 <= j < |events| ==> EventNumbersOn(trace[j], events[j]) {
      forall k | 0 <= k < |trace|
        ensures Numbered(trace[k])
      {
        RunKeepsNumbering(trace, events, k);
      }
    }
    if forall k :: 0 <= k < |trace| ==> Numbered(trace[k]) {
      forall j | 0 <= j < |events|
        ensures EventNumbersOn(trace[j], events[j])
      {
        assert Numbered(trace[j]) && Numbered(trace[j + 1]);
        EventKeepsNumbering(trace[j], events[j]);
      }
    }
  }

  /** A lead that lost its team, with an attempt in the team of the only
      salesman. */
  function TeamlessDb(): Db {
    Db([User(true, true, {})], [Team(0, 0, true, None)], [Member(0, 0, true)],
       [Lead(0, 0, None, DIRECT, true, Owner(None, None))],
       [], [], [], [Attempt(0, 0, 0, 1)], [], [], [], map[])
  }

  lemma TeamlessPool()
    ensures var pool := RetryPool(TeamlessDb(), TeamlessDb().leads[0]);
      pool != [] && pool[0].team == 0
  {
    var db := TeamlessDb();
    var all := EligiblePool(db, 0, None, TEAM_THEN_SALESMAN, None);
    PoolExact(db, 0, None, TEAM_THEN_SALESMAN, None);
    assert db.members[0] in all;
    PreferExact(all, None);
    assert RetryPool(db, db.leads[0])[0] in all;
  }

  /** It can fail: such a lead is retried, and its second attempt in the team is
      numbered 1 once more. */
  lemma TeamlessRetryRepeatsNumber(policy: Policy, env: Env)
    requires policy.attempts > 0
    ensures Numbered(TeamlessDb()) && !NumbersOn(TeamlessDb(), TeamlessDb().leads[0], policy)
    ensures !Numbered(HandleExpiry(TeamlessDb(), TeamlessDb().leads[0], policy, env))
  {
    TeamlessPool();
    TeamlessNumbered();
    ExpiryKeepsNumbering(TeamlessDb(), TeamlessDb().leads[0], policy, env);
  }

  lemma TeamlessNumbered()
    ensures Numbered(TeamlessDb()) && AttemptCount(TeamlessDb(), 0, Some(0)) == 1
  {
    var attempts := TeamlessDb().attempts;
    assert attempts[..0] == [];
    forall lead: nat, team: nat
      ensures CountsUp(AttemptNumbers(attempts, lead, Some(team)))
    {
      assert AttemptNumbers(attempts, lead, Some(team)) == if lead == 0 && team == 0 then [1] else [];
    }
  }

  /** A retry hands the lead to an eligible member of its team and records the
      attempt for that member. It never goes to the salesman the copy names
      unless nobody else was eligible, so to the stored one only if nobody else
      was or the copy names another. */
  lemma RetryOutcome(db: Db, lead: Lead, number: nat, env: Env)
    requires lead.id < |db.leads| && number > 0 && RetryPool(db, lead) != []
    ensures var after := RetryWithinTeam(db, lead, number, env);
      exists m ::
        && m in db.members && Eligible(db, m, lead.company, lead.language, TEAM_THEN_SALESMAN, lead.owner.team)
        && after.leads[lead.id].owner == Owner(Some(m.team), Some(m.user))
        && after.attempts == db.attempts + [Attempt(lead.id, m.team, m.user, number)]
        && (lead.owner.salesman == Some(m.user) ==>
              !SomebodyElse(db, lead, TEAM_THEN_SALESMAN, lead.owner.team, m.user))
        && (db.leads[lead.id].owner.salesman == Some(m.user)
              && SomebodyElse(db, lead, TEAM_THEN_SALESMAN, lead.owner.team, m.user) ==>
                lead.owner.salesman != db.leads[lead.id].owner.salesman)
  {
    var all := EligiblePool(db, lead.company, lead.language, TEAM_THEN_SALESMAN, lead.owner.team);
    var pool := RetryPool(db, lead);
    PreferExact(all, lead.owner.salesman);
    PoolExact(db, lead.company, lead.language, TEAM_THEN_SALESMAN, lead.owner.team);
    var m := pool[(number - 1) % |pool|];
    assert m in pool && m in all;
  }

  lemma {:induction false} NoAttemptWithoutTeam(attempts: seq<Attempt>, lead: nat)
    ensures AttemptNumbers(attempts, lead, None) == []
  {
    if attempts != [] {
      NoAttemptWithoutTeam(attempts[..|attempts| - 1], lead);
    }
  }
}
