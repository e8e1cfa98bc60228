/** Retry and escalation when distribution is not confined to a team: where one
    expiry leads, and exactly when it progresses. */
module Unscoped {
  import opened Text
  import opened Crm
  import opened Selectors
  import opened Strategies
  import opened Distribution
  import opened Escalation

  /** Everybody a lead can be given to when all salesmen are in scope. */
  ghost predicate Open(db: Db, lead: Lead, m: Member) {
    m in db.members && Eligible(db, m, lead.company, lead.language, ALL_SALESMEN, None)
  }

  /** Open, and not the current salesman unless that is everybody. */
  ghost predicate Reachable(db: Db, lead: Lead, m: Member) {
    Open(db, lead, m) && (lead.owner.salesman == Some(m.user) ==> forall o :: Open(db, lead, o) ==> o.user == m.user)
  }

  predicate Climbs(db: Db, lead: Lead, team: Option<nat>) {
    NextTeam(db.teams, lead.company, OrderOf(db, team)).Some?
  }

  /** Expiry of the lead escalates: no broker, no retry left, all in scope. */
  predicate Escalates(db: Db, id: nat, policy: Policy) {
    && HasTeam(db, id) && db.leads[id].origin == DIRECT && policy.scope == ALL_SALESMEN
    && AttemptCount(db, id, db.leads[id].owner.team) >= policy.attempts
  }

  lemma UnscopedPool(db: Db, lead: Lead, policy: Policy, team: Option<nat>)
    requires policy.scope == ALL_SALESMEN
    ensures forall m :: m in RunPool(db, lead, policy, team) <==> Reachable(db, lead, m)
  {
    var all := EligiblePool(db, lead.company, lead.language, ALL_SALESMEN, team);
    PoolExact(db, lead.company, lead.language, ALL_SALESMEN, team);
    forall m
      ensures m in RunPool(db, lead, policy, team) <==> Reachable(db, lead, m)
    {
      PreferKeeps(all, lead.owner.salesman, m);
    }
  }

  // ---- One expiry ----

  function Expire(db: Db, id: nat, policy: Policy, strategy: Strategy, env: Env): Db
    requires id < |db.leads| && db.leads[id].id == id
  {
    HandleExpiry(db, db.leads[id], policy.(auto := strategy), env)
  }

  function NextOf(db: Db, lead: Lead): Option<nat> {
    NextTeam(db.teams, lead.company, OrderOf(db, lead.owner.team))
  }

  /** An escalating expiry is a run for the next team, if there is one. */
  lemma ExpireIsRun(db: Db, id: nat, policy: Policy, strategy: Strategy, env: Env)
    requires Escalates(db, id, policy) && Climbs(db, db.leads[id], db.leads[id].owner.team)
    ensures Expire(db, id, policy, strategy, env)
      == Distribute(db, db.leads[id], policy.(auto := strategy), None, NextOf(db, db.leads[id]), env)
  {}

  /** The lead was handed to `m`, and nothing its next expiry reads changed. */
  predicate MovedTo(db: Db, after: Db, id: nat, m: Member) {
    && id < |db.leads| && |after.leads| == |db.leads|
    && after.leads[id] == db.leads[id].(owner := Owner(Some(m.team), Some(m.user)))
    && (after.users, after.teams, after.members, after.attempts) == (db.users, db.teams, db.members, db.attempts)
    && RowsFor(after.history, id) == RowsFor(db.history, id) + 1
  }

  /** Where an escalation leads: to some reachable member, or nowhere. */
  lemma EscalationMoves(db: Db, id: nat, policy: Policy, strategy: Strategy, env: Env)
    requires Escalates(db, id, policy)
    ensures var after := Expire(db, id, policy, strategy, env);
      || LeftToDistributors(db, after, id)
      || (Climbs(db, db.leads[id], db.leads[id].owner.team)
          && exists m :: Reachable(db, db.leads[id], m) && MovedTo(db, after, id, m))
  {
    var lead := db.leads[id];
    if Climbs(db, lead, lead.owner.team) {
      var p := policy.(auto := strategy);
      var after := Distribute(db, lead, p, None, NextOf(db, lead), env);
      ExpireIsRun(db, id, policy, strategy, env);
      DistributeOutcome(db, lead, p, None, NextOf(db, lead), env);
      DistributeFrame(db, lead, p, None, NextOf(db, lead), env);
      UnscopedPool(db, lead, p, NextOf(db, lead));
      if Assigns(db, after, lead, p, NextOf(db, lead)) {
        var run := after.runs[|db.runs|];
        var m :| m in RunPool(db, lead, p, NextOf(db, lead))
          && run.team == Some(m.team) && run.salesman == Some(m.user);
        AssigningCounted(db, after, lead, p, NextOf(db, lead));
        assert MovedTo(db, after, id, m);
      }
    }
  }

  lemma HigherLeavesFewer(teams: seq<Team>, company: nat, low: int, t: Team)
    requires t in teams && t.company == company && t.active
    ensures |OrdersAbove(teams, company, t.order)| < |OrdersAbove(teams, company, low)| <==> t.order > low
  {
    var above, before := OrdersAbove(teams, company, t.order), OrdersAbove(teams, company, low);
    if t.order > low {
      assert Above(t, company, low);
      assert t.order in before && t.order !in above;
      assert above <= before - {t.order};
      SubsetSize(above, before - {t.order});
    } else {
      assert before <= above;
      SubsetSize(before, above);
    }
  }

  lemma SubsetSize(a: set<int>, b: set<int>)
    requires a <= b
    ensures |a| <= |b|
  {
    assert |b| == |a| + |b - a| by {
      assert b == a + (b - a);
    }
  }

  predicate Higher(db: Db, lead: Lead, m: Member) {
    m.team < |db.teams| && db.teams[m.team].order > OrderOf(db, lead.owner.team)
  }

  lemma MoveProgressesIff(db: Db, after: Db, id: nat, n: nat, policy: Policy, m: Member)
    requires Escalates(db, id, policy) && policy.attempts == n
    requires Open(db, db.leads[id], m) && MovedTo(db, after, id, m)
    ensures !LeftToDistributors(db, after, id)
    ensures Progressed(db, after, id, n) <==> Higher(db, db.leads[id], m)
  {
    var lead := db.leads[id];
    HigherLeavesFewer(db.teams, lead.company, OrderOf(db, lead.owner.team), db.teams[m.team]);
    assert RetriesLeft(db, id, n) == 0;
  }

  /** One expiry is settled: left to the distributors, or progress. */
  predicate Settles(db: Db, id: nat, policy: Policy, strategy: Strategy, env: Env, n: nat)
    requires id < |db.leads| && db.leads[id].id == id
  {
    var after := Expire(db, id, policy, strategy, env);
    LeftToDistributors(db, after, id) || Progressed(db, after, id, n)
  }

  lemma AutoIsChosen(db: Db, lead: Lead, policy: Policy, strategy: Strategy, team: Option<nat>, env: Env)
    requires lead.id < |db.leads|
    ensures Distribute(db, lead, policy.(auto := strategy), None, team, env)
         == Distribute(db, lead, policy, Some(strategy), team, env)
  {}

  /** Some strategy moves the lead to any given reachable member. */
  lemma ChoiceMoves(db: Db, id: nat, policy: Policy, m: Member, env: Env) returns (i: nat)
    requires Escalates(db, id, policy) && Climbs(db, db.leads[id], db.leads[id].owner.team)
    requires Reachable(db, db.leads[id], m)
    ensures MovedTo(db, Expire(db, id, policy, Other(Some(i)), env), id, m)
  {
    var lead, next := db.leads[id], NextOf(db, db.leads[id]);
    UnscopedPool(db, lead, policy, next);
    i :| 0 <= i < |RunPool(db, lead, policy, next)| && RunPool(db, lead, policy, next)[i] == m;
    ExpireIsRun(db, id, policy, Other(Some(i)), env);
    AutoIsChosen(db, lead, policy, Other(Some(i)), next, env);
    NumberMoves(db, lead, policy, i, next, env);
  }

  lemma NumberMoves(db: Db, lead: Lead, policy: Policy, i: nat, team: Option<nat>, env: Env)
    requires lead.id < |db.leads| && lead == db.leads[lead.id] && policy.scope == ALL_SALESMEN
    requires i < |RunPool(db, lead, policy, team)|
    ensures MovedTo(db, ChosenRun(db, lead, policy, i, team, env), lead.id, RunPool(db, lead, policy, team)[i])
  {
    var after := ChosenRun(db, lead, policy, i, team, env);
    DistributesTo(db, lead, policy, i, team, env);
    DistributeOutcome(db, lead, policy, Some(Other(Some(i))), team, env);
    DistributeFrame(db, lead, policy, Some(Other(Some(i))), team, env);
    AssigningCounted(db, after, lead, policy, team);
  }

  /** Exactly when an unscoped expiry settles under every strategy: nobody it
      can reach sits in a team that is not higher than the lead's own. */
  lemma UnscopedProgressIff(db: Db, id: nat, n: nat, policy: Policy, env: Env)
    requires Escalates(db, id, policy) && policy.attempts == n
    ensures (forall strategy :: Settles(db, id, policy, strategy, env, n)) <==>
      (Climbs(db, db.leads[id], db.leads[id].owner.team) ==>
         forall m :: Reachable(db, db.leads[id], m) ==> Higher(db, db.leads[id], m))
  {
    var lead := db.leads[id];
    var climbs := Climbs(db, lead, lead.owner.team);
    if climbs ==> forall m :: Reachable(db, lead, m) ==> Higher(db, lead, m) {
      forall strategy
        ensures Settles(db, id, policy, strategy, env, n)
      {
        SettlesIfHigher(db, id, n, policy, strategy, env);
      }
    } else {
      var m :| Reachable(db, lead, m) && !Higher(db, lead, m);
      var i := ChoiceMoves(db, id, policy, m, env);
      MoveProgressesIff(db, Expire(db, id, policy, Other(Some(i)), env), id, n, policy, m);
      assert !Settles(db, id, policy, Other(Some(i)), env, n);
    }
  }

  lemma SettlesIfHigher(db: Db, id: nat, n: nat, policy: Policy, strategy: Strategy, env: Env)
    requires Escalates(db, id, policy) && policy.attempts == n
    requires Climbs(db, db.leads[id], db.leads[id].owner.team) ==>
      forall m :: Reachable(db, db.leads[id], m) ==> Higher(db, db.leads[id], m)
    ensures Settles(db, id, policy, strategy, env, n)
  {
    var lead := db.leads[id];
    var after := Expire(db, id, policy, strategy, env);
    EscalationMoves(db, id, policy, strategy, env);
    if !LeftToDistributors(db, after, id) {
      var m :| Reachable(db, lead, m) && MovedTo(db, after, id, m);
      MoveProgressesIff(db, after, id, n, policy, m);
    }
  }
}
