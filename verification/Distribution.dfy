/** Assignment, distribution, and retry with team escalation
    (apps/distribution/services.py), as functions of the tables. */
module Distribution {
  import opened Text
  import opened Crm
  import opened Selectors
  import opened Strategies

  function Notify(db: Db, n: Notice): Db {
    db.(notices := db.notices + [n])
  }

  /** Reopening the Fresh SLA: active instances of the lead complete, and a new
      one starts if policy gives a deadline. */
  function ResetSlas(slas: seq<Sla>, lead: nat, env: Env): seq<Sla> {
    seq(|slas|, i requires 0 <= i < |slas| =>
      if slas[i].lead == lead && slas[i].status == ACTIVE then slas[i].(status := COMPLETED) else slas[i])
    + (if env.deadline.Some? then [Sla(lead, ACTIVE)] else [])
  }

  /** The shared assignment routine: it reads the previous owner from the row,
      not from whatever copy the caller holds. */
  function Assign(db: Db, id: nat, to: Owner, kind: Kind, strategy: Option<Strategy>, env: Env): Db
    requires id < |db.leads|
  {
    var row := db.leads[id];
    db.(leads := db.leads[id := row.(owner := to)],
        slas := ResetSlas(db.slas, id, env),
        history := db.history + [Assignment(id, row.owner, to, kind, strategy, env.now)],
        notices := db.notices + (if to.salesman.Some? then [Assigned(id, to.salesman.value)] else []))
  }

  function AssignToSalesman(db: Db, id: nat, salesman: nat, team: Option<nat>, env: Env): Db
    requires id < |db.leads|
  {
    Assign(db, id, Owner(if team.Some? then team else db.leads[id].owner.team, Some(salesman)), MANUAL, None, env)
  }

  function HeadOf(db: Db, team: Option<nat>): Option<nat> {
    if team.Some? && team.value < |db.teams| then db.teams[team.value].head else None
  }

  function AssignToTeam(db: Db, id: nat, team: Option<nat>, env: Env): Db
    requires id < |db.leads|
  {
    Notify(Assign(db, id, Owner(team, None), MANUAL, None, env), PickSalesman(id, HeadOf(db, team)))
  }

  function Without(pool: seq<Member>, user: nat): seq<Member> {
    if pool == [] then []
    else (if pool[0].user == user then [] else [pool[0]]) + Without(pool[1..], user)
  }

  /** Drops the current salesman, unless nobody else is eligible. */
  function Prefer(pool: seq<Member>, current: Option<nat>): seq<Member> {
    if current.Some? && Without(pool, current.value) != [] then Without(pool, current.value) else pool
  }

  lemma {:induction false} WithoutExact(pool: seq<Member>, user: nat, m: Member)
    ensures m in Without(pool, user) <==> m in pool && m.user != user
  {
    if pool != [] {
      WithoutExact(pool[1..], user, m);
      assert m in pool <==> m == pool[0] || m in pool[1..];
    }
  }

  lemma PreferExact(pool: seq<Member>, current: Option<nat>)
    ensures forall m :: m in Prefer(pool, current) ==> m in pool
    ensures Prefer(pool, current) == [] <==> pool == []
    ensures forall m :: m in Prefer(pool, current) && current == Some(m.user) ==>
      forall other :: other in pool ==> other.user == m.user
  {
    if current.Some? {
      forall m
        ensures m in Without(pool, current.value) <==> m in pool && m.user != current.value
      {
        WithoutExact(pool, current.value, m);
      }
      if Without(pool, current.value) == [] {
        forall m | m in pool
          ensures m.user == current.value
        {
          assert m !in Without(pool, current.value);
        }
      }
    }
  }

  /** Exactly who stays in the pool: the current salesman goes unless nobody
      else is there. */
  lemma PreferKeeps(pool: seq<Member>, current: Option<nat>, m: Member)
    ensures m in Prefer(pool, current) <==>
      m in pool && (current == Some(m.user) ==> forall other :: other in pool ==> other.user == m.user)
  {
    PreferExact(pool, current);
    if current.Some? {
      WithoutExact(pool, current.value, m);
      forall other | other in pool && other.user != current.value
        ensures other in Without(pool, current.value)
      {
        WithoutExact(pool, current.value, other);
      }
    }
    if current.Some? && Without(pool, current.value) != [] {
      WithoutExact(pool, current.value, Without(pool, current.value)[0]);
    }
  }

  function CandidateRow(run: nat, user: nat, loads: map<nat, (nat, Option<int>)>, chosen: Option<nat>): Candidate {
    var load := if user in loads then loads[user] else (0, None);
    Candidate(run, user, load.0, load.1, Some(user) != chosen)
  }

  function CandidateRows(run: nat, pool: seq<Member>, loads: map<nat, (nat, Option<int>)>,
                         chosen: Option<nat>): seq<Candidate> {
    if pool == [] then []
    else [CandidateRow(run, pool[0].user, loads, chosen)] + CandidateRows(run, pool[1..], loads, chosen)
  }

  function UsersOf(pool: seq<Member>): (users: seq<nat>)
    ensures |users| == |pool|
  {
    seq(|pool|, i requires 0 <= i < |pool| => pool[i].user)
  }

  function RecordCandidates(db: Db, run: nat, company: nat, pool: seq<Member>, decision: Decision): Db {
    db.(candidates := db.candidates
          + CandidateRows(run, pool, BatchLoads(db, company, UsersOf(pool)), decision.salesman))
  }

  function CloseRun(db: Db, run: nat, status: RunStatus, decision: Decision): Db
    requires run < |db.runs|
  {
    db.(runs := db.runs[run := db.runs[run].(status := status, team := decision.team, salesman := decision.salesman)])
  }

  /** The pool a run for this copy of a lead chooses from. */
  function RunPool(db: Db, lead: Lead, policy: Policy, team: Option<nat>): seq<Member> {
    Prefer(EligiblePool(db, lead.company, lead.language, policy.scope, team), lead.owner.salesman)
  }

  function OpenRun(db: Db, lead: Lead, policy: Policy, strategy: Strategy): Db {
    db.(runs := db.runs + [Run(lead.id, strategy, policy.scope, PENDING, None, None)])
  }

  /** The tables after the decision is recorded, and the decision. */
  function Decided(db: Db, lead: Lead, policy: Policy, strategy: Strategy, team: Option<nat>): (Db, Decision) {
    var started := OpenRun(db, lead, policy, strategy);
    var pool := RunPool(started, lead, policy, team);
    var (selected, decision) := Select(started, strategy, lead.company, policy.scope, lead.language, pool);
    (RecordCandidates(selected, |db.runs|, lead.company, pool, decision), decision)
  }

  /** One distribution run, decided on the caller's copy of the lead. */
  function Distribute(db: Db, lead: Lead, policy: Policy, chosen: Option<Strategy>, team: Option<nat>, env: Env): Db
    requires lead.id < |db.leads|
  {
    var strategy := if chosen.Some? then chosen.value else policy.auto;
    var started := OpenRun(db, lead, policy, strategy);
    var run := |db.runs|;
    var pool := RunPool(started, lead, policy, team);
    if pool == [] then
      Notify(CloseRun(started, run, NO_CANDIDATE, NOBODY), ManualRequired(lead.id))
    else
      var (recorded, decision) := Decided(db, lead, policy, strategy, team);
      if decision == NOBODY then
        Notify(CloseRun(recorded, run, NO_CANDIDATE, NOBODY), ManualRequired(lead.id))
      else
        var handed :=
          if policy.scope == TEAM_HEAD_DECIDES then AssignToTeam(recorded, lead.id, decision.team, env)
          else Assign(recorded, lead.id, Owner(decision.team, decision.salesman), AUTO, Some(strategy), env);
        CloseRun(handed, run, DONE, decision)
  }

  // ---- What a run does ----

  lemma {:induction false} CandidateRowsExact(run: nat, pool: seq<Member>, loads: map<nat, (nat, Option<int>)>,
                                              chosen: Option<nat>)
    ensures var rows := CandidateRows(run, pool, loads, chosen);
      && |rows| == |pool|
      && forall i :: 0 <= i < |rows| ==>
           && rows[i].run == run && rows[i].user == pool[i].user
           && (rows[i].rejected <==> chosen != Some(rows[i].user))
           && (rows[i].user in loads ==> (rows[i].load, rows[i].lastReceived) == loads[rows[i].user])
  {
    if pool != [] {
      CandidateRowsExact(run, pool[1..], loads, chosen);
    }
  }

  /** The candidate rows a run adds: one per pool member, with that user's load,
      and no rejection exactly on the chosen user's. */
  predicate CandidatesExplain(db: Db, added: seq<Candidate>, run: nat, company: nat, pool: seq<Member>,
                              chosen: Option<nat>) {
    && |added| == |pool|
    && forall i :: 0 <= i < |added| ==>
         && added[i].run == run && added[i].user == pool[i].user
         && (added[i].rejected <==> chosen != Some(added[i].user))
         && (added[i].load, added[i].lastReceived) == CandidateLoad(db, company, added[i].user)
  }

  lemma RecordedCandidatesExplain(db: Db, run: nat, company: nat, pool: seq<Member>, decision: Decision)
    ensures var after := RecordCandidates(db, run, company, pool, decision);
      && after == db.(candidates := after.candidates)
      && db.candidates <= after.candidates
      && CandidatesExplain(db, after.candidates[|db.candidates|..], run, company, pool, decision.salesman)
  {
    var loads := BatchLoads(db, company, UsersOf(pool));
    var rows := CandidateRows(run, pool, loads, decision.salesman);
    CandidateRowsExact(run, pool, loads, decision.salesman);
    BatchRefinesSingle(db, company, UsersOf(pool));
    assert (db.candidates + rows)[|db.candidates|..] == rows;
    forall i | 0 <= i < |rows|
      ensures rows[i].user in UsersOf(pool)
    {
      assert UsersOf(pool)[i] == pool[i].user;
    }
  }

  /** The run assigned: its choice is an eligible membership, the lead's owner
      is that choice, and one history row from the row's own previous owner
      records it. */
  ghost predicate Assigns(db: Db, after: Db, lead: Lead, policy: Policy, team: Option<nat>)
    requires lead.id < |db.leads| && |after.runs| == |db.runs| + 1
  {
    var run := after.runs[|db.runs|];
    && run.status == DONE
    && |after.leads| == |db.leads|
    && (exists m :: m in RunPool(db, lead, policy, team)
          && run.team == Some(m.team) && run.salesman == Some(m.user))
    && after.leads[lead.id].owner
         == Owner(run.team, if policy.scope == TEAM_HEAD_DECIDES then None else run.salesman)
    && |after.history| == |db.history| + 1
    && after.history[..|db.history|] == db.history
    && (var row := after.history[|db.history|];
        && row.lead == lead.id && row.from == db.leads[lead.id].owner && row.to == after.leads[lead.id].owner
        && row.kind == (if policy.scope == TEAM_HEAD_DECIDES then MANUAL else AUTO))
  }

  predicate Declines(db: Db, after: Db, lead: Lead)
    requires |after.runs| == |db.runs| + 1
  {
    && after.runs[|db.runs|].status == NO_CANDIDATE
    && after.leads == db.leads && after.history == db.history
    && after.notices == db.notices + [ManualRequired(lead.id)]
  }

  lemma PoolAfterOpening(db: Db, lead: Lead, policy: Policy, strategy: Strategy, team: Option<nat>)
    ensures RunPool(OpenRun(db, lead, policy, strategy), lead, policy, team) == RunPool(db, lead, policy, team)
  {
    var started := OpenRun(db, lead, policy, strategy);
    PoolIgnoresOtherTables(db, started, |db.users|, lead.company, lead.language, policy.scope, team);
  }

  lemma {:induction false} MembersOfIgnoresOtherTables(a: Db, b: Db, rows: seq<Member>, user: nat, company: nat,
                                                       language: Option<nat>, scope: Scope, team: Option<nat>)
    requires a.users == b.users && a.teams == b.teams
    ensures MembersOf(a, rows, user, company, language, scope, team)
      == MembersOf(b, rows, user, company, language, scope, team)
  {
    if rows != [] {
      MembersOfIgnoresOtherTables(a, b, rows[1..], user, company, language, scope, team);
    }
  }

  lemma {:induction false} PoolIgnoresOtherTables(a: Db, b: Db, bound: nat, company: nat, language: Option<nat>,
                                                  scope: Scope, team: Option<nat>)
    requires a.users == b.users && a.teams == b.teams && a.members == b.members
    ensures PoolBelow(a, bound, company, language, scope, team) == PoolBelow(b, bound, company, language, scope, team)
  {
    if bound > 0 {
      PoolIgnoresOtherTables(a, b, bound - 1, company, language, scope, team);
      MembersOfIgnoresOtherTables(a, b, a.members, bound - 1, company, language, scope, team);
    }
  }

  /** Deciding opens one run and writes its candidate rows; no owner changes. */
  lemma DecidedOutcome(db: Db, lead: Lead, policy: Policy, strategy: Strategy, team: Option<nat>)
    ensures var (after, decision) := Decided(db, lead, policy, strategy, team);
      && after == db.(runs := after.runs, candidates := after.candidates, pointers := after.pointers)
      && |after.runs| == |db.runs| + 1 && after.runs[..|db.runs|] == db.runs
      && after.runs[|db.runs|] == Run(lead.id, strategy, policy.scope, PENDING, None, None)
      && (decision == NOBODY || exists m :: m in RunPool(db, lead, policy, team) && decision == Chosen(m))
      && (RunPool(db, lead, policy, team) != [] && strategy != Other(None) ==> decision != NOBODY)
      && db.candidates <= after.candidates
      && CandidatesExplain(db, after.candidates[|db.candidates|..], |db.runs|, lead.company,
           RunPool(db, lead, policy, team), decision.salesman)
  {
    var started := OpenRun(db, lead, policy, strategy);
    PoolAfterOpening(db, lead, policy, strategy, team);
    var pool := RunPool(started, lead, policy, team);
    SelectsFromPool(started, strategy, lead.company, policy.scope, lead.language, pool);
    var (selected, decision) := Select(started, strategy, lead.company, policy.scope, lead.language, pool);
    RecordedCandidatesExplain(selected, |db.runs|, lead.company, pool, decision);
    assert started.runs[..|db.runs|] == db.runs;
  }

  /** Every run closes as DONE or NO_CANDIDATE, and does what that says. */
  lemma DistributeOutcome(db: Db, lead: Lead, policy: Policy, chosen: Option<Strategy>, team: Option<nat>, env: Env)
    requires lead.id < |db.leads|
    ensures var after := Distribute(db, lead, policy, chosen, team, env);
      && |after.runs| == |db.runs| + 1
      && after.runs[..|db.runs|] == db.runs
      && (var run := after.runs[|db.runs|];
          (run.lead, run.scope) == (lead.id, policy.scope)
          && run.strategy == if chosen.Some? then chosen.value else policy.auto)
      && (Assigns(db, after, lead, policy, team) || Declines(db, after, lead))
      && (RunPool(db, lead, policy, team) == [] ==> Declines(db, after, lead))
  {
    var strategy := if chosen.Some? then chosen.value else policy.auto;
    PoolAfterOpening(db, lead, policy, strategy, team);
    var pool := RunPool(db, lead, policy, team);
    var after := Distribute(db, lead, policy, chosen, team, env);
    if pool != [] {
      DecidedOutcome(db, lead, policy, strategy, team);
      var (recorded, decision) := Decided(db, lead, policy, strategy, team);
      if decision != NOBODY {
        var m :| m in pool && decision == Chosen(m);
        assert after.history[..|db.history|] == db.history;
        assert Assigns(db, after, lead, policy, team);
      }
    }
  }

  /** A strategy that decides always assigns when the pool is not empty; the
      built-in ones decide. */
  lemma DecidingStrategiesAssign(db: Db, lead: Lead, policy: Policy, chosen: Option<Strategy>, team: Option<nat>,
                                 env: Env)
    requires lead.id < |db.leads|
    requires RunPool(db, lead, policy, team) != []
    requires (if chosen.Some? then chosen.value else policy.auto) != Other(None)
    ensures var after := Distribute(db, lead, policy, chosen, team, env);
      |after.runs| == |db.runs| + 1 && after.runs[|db.runs|].status == DONE
  {
    var strategy := if chosen.Some? then chosen.value else policy.auto;
    PoolAfterOpening(db, lead, policy, strategy, team);
    DecidedOutcome(db, lead, policy, strategy, team);
  }

  /** What distribution leaves alone. */
  lemma DistributeFrame(db: Db, lead: Lead, policy: Policy, chosen: Option<Strategy>, team: Option<nat>, env: Env)
    requires lead.id < |db.leads|
    ensures var after := Distribute(db, lead, policy, chosen, team, env);
      && |after.leads| == |db.leads|
      && (forall i :: 0 <= i < |db.leads| && i != lead.id ==> after.leads[i] == db.leads[i])
      && after.leads[lead.id] == db.leads[lead.id].(owner := after.leads[lead.id].owner)
      && (after.users, after.teams, after.members) == (db.users, db.teams, db.members)
      && (after.attempts, after.breaches) == (db.attempts, db.breaches)
  {
    var strategy := if chosen.Some? then chosen.value else policy.auto;
    DecidedOutcome(db, lead, policy, strategy, team);
  }

  /** An assignment restarts the lead's SLA, dates its history row, names the
      strategy unless the team head is to decide, and tells exactly one user;
      a run without a candidate touches no SLA. */
  ghost predicate TakesEffect(db: Db, after: Db, lead: Lead, scope: Scope, env: Env)
    requires |after.runs| == |db.runs| + 1
  {
    var run := after.runs[|db.runs|];
    if run.status == DONE then
      && |after.history| == |db.history| + 1 && run.salesman.Some?
      && after.slas == ResetSlas(db.slas, lead.id, env)
      && after.history[|db.history|].at == env.now
      && after.history[|db.history|].strategy == (if scope == TEAM_HEAD_DECIDES then None else Some(run.strategy))
      && after.notices == db.notices
           + [if scope == TEAM_HEAD_DECIDES then PickSalesman(lead.id, HeadOf(db, run.team))
              else Assigned(lead.id, run.salesman.value)]
    else after.slas == db.slas
  }

  /** Handing over what was decided; `recorded` holds the open run. */
  lemma HandOverTakesEffect(db: Db, recorded: Db, lead: Lead, scope: Scope, strategy: Strategy, m: Member, env: Env)
    requires lead.id < |db.leads| && |recorded.runs| == |db.runs| + 1
    requires recorded == db.(runs := recorded.runs, candidates := recorded.candidates, pointers := recorded.pointers)
    requires recorded.runs[|db.runs|].strategy == strategy
    ensures var handed :=
        if scope == TEAM_HEAD_DECIDES then AssignToTeam(recorded, lead.id, Some(m.team), env)
        else Assign(recorded, lead.id, Owner(Some(m.team), Some(m.user)), AUTO, Some(strategy), env);
      TakesEffect(db, CloseRun(handed, |db.runs|, DONE, Chosen(m)), lead, scope, env)
  {}

  lemma DistributeEffects(db: Db, lead: Lead, policy: Policy, chosen: Option<Strategy>, team: Option<nat>, env: Env)
    requires lead.id < |db.leads|
    ensures var after := Distribute(db, lead, policy, chosen, team, env);
      |after.runs| == |db.runs| + 1 && TakesEffect(db, after, lead, policy.scope, env)
  {
    var strategy := if chosen.Some? then chosen.value else policy.auto;
    PoolAfterOpening(db, lead, policy, strategy, team);
    var pool := RunPool(db, lead, policy, team);
    if pool != [] {
      DecidedOutcome(db, lead, policy, strategy, team);
      var (recorded, decision) := Decided(db, lead, policy, strategy, team);
      if decision != NOBODY {
        var m :| m in pool && decision == Chosen(m);
        HandOverTakesEffect(db, recorded, lead, policy.scope, strategy, m, env);
      }
    }
  }

  ghost predicate SomebodyElse(db: Db, lead: Lead, scope: Scope, team: Option<nat>, user: nat) {
    exists m :: m in db.members && Eligible(db, m, lead.company, lead.language, scope, team) && m.user != user
  }

  /** The run chose the salesman the row already had, though not for want of
      another. */
  ghost predicate GoesBack(db: Db, after: Db, lead: Lead, scope: Scope, team: Option<nat>)
    requires lead.id < |db.leads| && |after.runs| == |db.runs| + 1
  {
    var run := after.runs[|db.runs|];
    && run.status == DONE && run.salesman.Some?
    && run.salesman == db.leads[lead.id].owner.salesman
    && SomebodyElse(db, lead, scope, team, run.salesman.value)
  }

  /** A lead goes back to the salesman of the caller's copy only when nobody
      else was eligible, and so to its stored salesman only when nobody else
      was or the copy names another. */
  lemma OwnerChangesIfPossible(db: Db, lead: Lead, policy: Policy, chosen: Option<Strategy>, team: Option<nat>,
                               env: Env)
    requires lead.id < |db.leads|
    ensures var after := Distribute(db, lead, policy, chosen, team, env);
      && |after.runs| == |db.runs| + 1
      && (after.runs[|db.runs|].status == DONE && after.runs[|db.runs|].salesman == lead.owner.salesman ==>
            forall m :: m in db.members && Eligible(db, m, lead.company, lead.language, policy.scope, team) ==>
              lead.owner.salesman == Some(m.user))
      && (GoesBack(db, after, lead, policy.scope, team) ==>
            lead.owner.salesman != db.leads[lead.id].owner.salesman)
  {
    var after := Distribute(db, lead, policy, chosen, team, env);
    DistributeOutcome(db, lead, policy, chosen, team, env);
    if after.runs[|db.runs|].status == DONE && after.runs[|db.runs|].salesman == lead.owner.salesman {
      var all := EligiblePool(db, lead.company, lead.language, policy.scope, team);
      PreferExact(all, lead.owner.salesman);
      PoolExact(db, lead.company, lead.language, policy.scope, team);
      var m :| m in RunPool(db, lead, policy, team) && after.runs[|db.runs|].salesman == Some(m.user);
    }
  }

  /** A strategy that decides on number `i` of the pool gets that member. */
  lemma DistributesTo(db: Db, lead: Lead, policy: Policy, i: nat, team: Option<nat>, env: Env)
    requires lead.id < |db.leads| && i < |RunPool(db, lead, policy, team)|
    ensures var after := ChosenRun(db, lead, policy, i, team, env);
      var m := RunPool(db, lead, policy, team)[i];
      && |after.runs| == |db.runs| + 1 && |after.leads| == |db.leads|
      && after.runs[|db.runs|].status == DONE
      && (after.runs[|db.runs|].team, after.runs[|db.runs|].salesman) == (Some(m.team), Some(m.user))
  {
    PoolAfterOpening(db, lead, policy, Other(Some(i)), team);
    SmallModulus(i, |RunPool(db, lead, policy, team)|);
  }

  /** The stored salesman and somebody else are eligible, and the copy does not
      name the stored salesman. */
  ghost predicate CouldReturn(db: Db, lead: Lead, scope: Scope, team: Option<nat>)
    requires lead.id < |db.leads|
  {
    var stored := db.leads[lead.id].owner.salesman;
    && stored.Some? && lead.owner.salesman != stored
    && (exists m :: m in db.members && Eligible(db, m, lead.company, lead.language, scope, team)
          && m.user == stored.value)
    && SomebodyElse(db, lead, scope, team, stored.value)
  }

  /** The outcome if the strategy decides on number `i` of the pool. */
  function ChosenRun(db: Db, lead: Lead, policy: Policy, i: nat, team: Option<nat>, env: Env): Db
    requires lead.id < |db.leads|
  {
    Distribute(db, lead, policy, Some(Other(Some(i))), team, env)
  }

  ghost predicate ReturnsAt(db: Db, lead: Lead, policy: Policy, i: nat, team: Option<nat>, env: Env)
    requires lead.id < |db.leads|
  {
    var after := ChosenRun(db, lead, policy, i, team, env);
    |after.runs| == |db.runs| + 1 && GoesBack(db, after, lead, policy.scope, team)
  }

  lemma CouldReturnDoes(db: Db, lead: Lead, policy: Policy, team: Option<nat>, env: Env) returns (i: nat)
    requires lead.id < |db.leads| && CouldReturn(db, lead, policy.scope, team)
    ensures ReturnsAt(db, lead, policy, i, team, env)
  {
    var stored := db.leads[lead.id].owner.salesman;
    var all := EligiblePool(db, lead.company, lead.language, policy.scope, team);
    var pool := RunPool(db, lead, policy, team);
    PoolExact(db, lead.company, lead.language, policy.scope, team);
    var m :| m in db.members && Eligible(db, m, lead.company, lead.language, policy.scope, team)
      && m.user == stored.value;
    PreferKeeps(all, lead.owner.salesman, m);
    i :| 0 <= i < |pool| && pool[i] == m;
    ChosenReturns(db, lead, policy, i, team, env);
  }

  lemma ChosenReturns(db: Db, lead: Lead, policy: Policy, i: nat, team: Option<nat>, env: Env)
    requires lead.id < |db.leads| && i < |RunPool(db, lead, policy, team)|
    requires db.leads[lead.id].owner.salesman == Some(RunPool(db, lead, policy, team)[i].user)
    requires SomebodyElse(db, lead, policy.scope, team, RunPool(db, lead, policy, team)[i].user)
    ensures ReturnsAt(db, lead, policy, i, team, env)
  {
    DistributesTo(db, lead, policy, i, team, env);
  }

  lemma ReturningCould(db: Db, lead: Lead, policy: Policy, i: nat, team: Option<nat>, env: Env)
    requires lead.id < |db.leads| && ReturnsAt(db, lead, policy, i, team, env)
    ensures CouldReturn(db, lead, policy.scope, team)
  {
    OwnerChangesIfPossible(db, lead, policy, Some(Other(Some(i))), team, env);
    DistributeOutcome(db, lead, policy, Some(Other(Some(i))), team, env);
    PreferExact(EligiblePool(db, lead.company, lead.language, policy.scope, team), lead.owner.salesman);
    PoolExact(db, lead.company, lead.language, policy.scope, team);
  }

  /** Exactly when some choice from the pool hands the lead back to its stored
      salesman without need: the code compares with the copy, not the row. */
  lemma ReturnsToStoredIff(db: Db, lead: Lead, policy: Policy, team: Option<nat>, env: Env)
    requires lead.id < |db.leads|
    ensures (exists i: nat :: ReturnsAt(db, lead, policy, i, team, env))
      <==> CouldReturn(db, lead, policy.scope, team)
  {
    if CouldReturn(db, lead, policy.scope, team) {
      var i := CouldReturnDoes(db, lead, policy, team, env);
    }
    if i: nat :| ReturnsAt(db, lead, policy, i, team, env) {
      ReturningCould(db, lead, policy, i, team, env);
    }
  }

  /** It happens with the built-in rotation: the copy names salesman 1, the row
      salesman 0, and the lead goes from 0 to 0 while 1 is available. */
  lemma StaleCopyReturnsLead(env: Env)
    ensures var db := Db([User(true, true, {}), User(true, true, {})], [Team(0, 0, true, None)],
                         [Member(0, 0, true), Member(0, 1, true)],
                         [Lead(0, 0, None, DIRECT, true, Owner(Some(0), Some(0)))],
                         [], [], [], [], [], [], [], map[]);
      var copy := db.leads[0].(owner := Owner(Some(0), Some(1)));
      var after := Distribute(db, copy, Policy(BY_TURN, ALL_SALESMEN, 3, ByTurnExpiry), None, None, env);
      |after.runs| == 1 && GoesBack(db, after, copy, ALL_SALESMEN, None)
      && |after.history| == 1 && after.history[0].from.salesman == after.history[0].to.salesman == Some(0)
  {
    var db := Db([User(true, true, {}), User(true, true, {})], [Team(0, 0, true, None)],
                 [Member(0, 0, true), Member(0, 1, true)],
                 [Lead(0, 0, None, DIRECT, true, Owner(Some(0), Some(0)))], [], [], [], [], [], [], [], map[]);
    var copy := db.leads[0].(owner := Owner(Some(0), Some(1)));
    var policy := Policy(BY_TURN, ALL_SALESMEN, 3, ByTurnExpiry);
    var all := EligiblePool(db, 0, None, ALL_SALESMEN, None);
    PoolExact(db, 0, None, ALL_SALESMEN, None);
    assert db.members[0] in all && db.members[1] in all;
    PreferExact(all, Some(1));
    DistributeOutcome(db, copy, policy, None, None, env);
    DecidingStrategiesAssign(db, copy, policy, None, None, env);
  }

  /** The run's candidate rows explain its decision. */
  lemma DistributeExplains(db: Db, lead: Lead, policy: Policy, chosen: Option<Strategy>, team: Option<nat>, env: Env)
    requires lead.id < |db.leads|
    ensures var after := Distribute(db, lead, policy, chosen, team, env);
      && db.candidates <= after.candidates
      && |after.runs| == |db.runs| + 1
      && CandidatesExplain(db, after.candidates[|db.candidates|..], |db.runs|, lead.company,
           RunPool(db, lead, policy, team), after.runs[|db.runs|].salesman)
  {
    var strategy := if chosen.Some? then chosen.value else policy.auto;
    PoolAfterOpening(db, lead, policy, strategy, team);
    DecidedOutcome(db, lead, policy, strategy, team);
  }

  // ---- Whom a run chooses ----

  function StrategyOf(policy: Policy, chosen: Option<Strategy>): Strategy {
    if chosen.Some? then chosen.value else policy.auto
  }

  /** The run at the end of `after` was given to `m`. */
  predicate RunGiven(db: Db, after: Db, m: Member) {
    && |after.runs| == |db.runs| + 1
    && after.runs[|db.runs|].status == DONE
    && (after.runs[|db.runs|].team, after.runs[|db.runs|].salesman) == (Some(m.team), Some(m.user))
  }

  /** What the strategy selects from the pool is what the run is given. */
  lemma RunTakesSelection(db: Db, lead: Lead, policy: Policy, chosen: Option<Strategy>, team: Option<nat>, env: Env,
                          m: Member)
    requires lead.id < |db.leads| && RunPool(db, lead, policy, team) != []
    requires var started := OpenRun(db, lead, policy, StrategyOf(policy, chosen));
      Select(started, StrategyOf(policy, chosen), lead.company, policy.scope, lead.language,
        RunPool(db, lead, policy, team)).1 == Chosen(m)
    ensures var started := OpenRun(db, lead, policy, StrategyOf(policy, chosen));
      var after := Distribute(db, lead, policy, chosen, team, env);
      && RunGiven(db, after, m)
      && after.pointers == Select(started, StrategyOf(policy, chosen), lead.company, policy.scope, lead.language,
           RunPool(db, lead, policy, team)).0.pointers
  {
    PoolAfterOpening(db, lead, policy, StrategyOf(policy, chosen), team);
  }

  /** A round-robin run goes to the first of the pool whom nobody undercuts:
      fewest active leads, then the longest wait. No cursor moves. */
  lemma RoundRobinRun(db: Db, lead: Lead, policy: Policy, chosen: Option<Strategy>, team: Option<nat>, env: Env)
    returns (i: nat)
    requires lead.id < |db.leads| && RunPool(db, lead, policy, team) != []
    requires StrategyOf(policy, chosen) == ROUND_ROBIN
    ensures var pool := RunPool(db, lead, policy, team);
      var after := Distribute(db, lead, policy, chosen, team, env);
      && i < |pool| && RunGiven(db, after, pool[i]) && after.pointers == db.pointers
      && (var (count, last) := CandidateLoad(db, lead.company, pool[i].user);
          && (forall m :: m in pool ==>
                var (other, otherLast) := CandidateLoad(db, lead.company, m.user);
                count < other
                || (count == other && (last == None || (otherLast.Some? && last.value <= otherLast.value))))
          && forall j :: 0 <= j < i ==>
               Before(CandidateLoad(db, lead.company, pool[i].user), CandidateLoad(db, lead.company, pool[j].user)))
  {
    var pool := RunPool(db, lead, policy, team);
    var started := OpenRun(db, lead, policy, ROUND_ROBIN);
    var loads := LoadsOf(started, lead.company, pool);
    i := LeastLoaded(loads);
    forall m | m in pool
      ensures !Before(CandidateLoad(db, lead.company, m.user), CandidateLoad(db, lead.company, pool[i].user))
    {
      var k :| 0 <= k < |pool| && pool[k] == m;
      assert !Before(loads[k], loads[i]);
    }
    forall j | 0 <= j < i
      ensures Before(CandidateLoad(db, lead.company, pool[i].user), CandidateLoad(db, lead.company, pool[j].user))
    {
      assert Before(loads[i], loads[j]);
    }
    RunTakesSelection(db, lead, policy, chosen, team, env, pool[i]);
  }

  /** A by-turn run goes to the member at the cursor of the company, scope and
      language, and moves that cursor one place round the pool, no other. */
  lemma ByTurnRun(db: Db, lead: Lead, policy: Policy, chosen: Option<Strategy>, team: Option<nat>, env: Env)
    requires lead.id < |db.leads| && RunPool(db, lead, policy, team) != []
    requires StrategyOf(policy, chosen) == BY_TURN
    ensures var pool := RunPool(db, lead, policy, team);
      var key := PointerKey(lead.company, policy.scope, lead.language);
      var index := (if key in db.pointers then db.pointers[key] else 0) % |pool|;
      var after := Distribute(db, lead, policy, chosen, team, env);
      && RunGiven(db, after, pool[index])
      && after.pointers == db.pointers[key := if index + 1 < |pool| then index + 1 else 0]
  {
    var pool := RunPool(db, lead, policy, team);
    var key := PointerKey(lead.company, policy.scope, lead.language);
    var index := (if key in db.pointers then db.pointers[key] else 0) % |pool|;
    SmallModulus(index, |pool|);
    RunTakesSelection(db, lead, policy, chosen, team, env, pool[index]);
  }

  /** By-turn runs one after the other, for leads whose pool is the same. */
  predicate TurnsOver(trace: seq<Db>, leads: seq<Lead>, policy: Policy, team: Option<nat>, envs: seq<Env>,
                      company: nat, language: Option<nat>, pool: seq<Member>) {
    && |trace| == |leads| + 1 && |envs| == |leads|
    && forall k :: 0 <= k < |leads| ==>
         && (leads[k].company, leads[k].language) == (company, language)
         && leads[k].id < |trace[k].leads| && RunPool(trace[k], leads[k], policy, team) == pool
         && trace[k + 1] == Distribute(trace[k], leads[k], policy, Some(BY_TURN), team, envs[k])
  }

  lemma {:induction false} CursorOverRuns(trace: seq<Db>, leads: seq<Lead>, policy: Policy, team: Option<nat>,
                                          envs: seq<Env>, company: nat, language: Option<nat>, pool: seq<Member>,
                                          k: nat)
    requires TurnsOver(trace, leads, policy, team, envs, company, language, pool) && pool != []
    requires k <= |leads| && k < |pool|
    ensures Position(trace[k], company, policy.scope, language, pool)
      == Rotated(Position(trace[0], company, policy.scope, language, pool), k, |pool|)
  {
    if k > 0 {
      CursorOverRuns(trace, leads, policy, team, envs, company, language, pool, k - 1);
      ByTurnRun(trace[k - 1], leads[k - 1], policy, Some(BY_TURN), team, envs[k - 1]);
      var p := Position(trace[k - 1], company, policy.scope, language, pool);
      SmallModulus(p, |pool|);
      SmallModulus(if p + 1 < |pool| then p + 1 else 0, |pool|);
    }
  }

  /** As many by-turn runs as the pool has members give every member one. */
  lemma EveryMemberGetsARun(trace: seq<Db>, leads: seq<Lead>, policy: Policy, team: Option<nat>, envs: seq<Env>,
                            company: nat, language: Option<nat>, pool: seq<Member>, index: nat) returns (k: nat)
    requires TurnsOver(trace, leads, policy, team, envs, company, language, pool)
    requires index < |pool| <= |leads|
    ensures k < |pool| && RunGiven(trace[k], trace[k + 1], pool[index])
  {
    var p := Position(trace[0], company, policy.scope, language, pool);
    k := if index >= p then index - p else index + |pool| - p;
    CursorOverRuns(trace, leads, policy, team, envs, company, language, pool, k);
    ByTurnRun(trace[k], leads[k], policy, Some(BY_TURN), team, envs[k]);
  }

  /** Told from the tables: a run that assigns gives the lead to an available
      member of the company, the language and the team asked for; one whose
      strategy decides fails only if there is none. */
  lemma DistributeFollowsTables(db: Db, lead: Lead, policy: Policy, chosen: Option<Strategy>, team: Option<nat>,
                                env: Env)
    requires lead.id < |db.leads|
    ensures var after := Distribute(db, lead, policy, chosen, team, env);
      && |after.runs| == |db.runs| + 1
      && (after.runs[|db.runs|].status == DONE ==>
            exists m :: m in db.members && Eligible(db, m, lead.company, lead.language, policy.scope, team)
              && RunGiven(db, after, m))
      && (StrategyOf(policy, chosen) != Other(None) ==>
            (after.runs[|db.runs|].status == DONE <==>
             exists m :: m in db.members && Eligible(db, m, lead.company, lead.language, policy.scope, team)))
  {
    var all := EligiblePool(db, lead.company, lead.language, policy.scope, team);
    DistributeOutcome(db, lead, policy, chosen, team, env);
    PoolExact(db, lead.company, lead.language, policy.scope, team);
    PreferExact(all, lead.owner.salesman);
    if m :| m in db.members && Eligible(db, m, lead.company, lead.language, policy.scope, team) {
      assert m in all;
      if StrategyOf(policy, chosen) != Other(None) {
        DecidingStrategiesAssign(db, lead, policy, chosen, team, env);
      }
    }
    var after := Distribute(db, lead, policy, chosen, team, env);
    if after.runs[|db.runs|].status == DONE {
      var m :| m in RunPool(db, lead, policy, team)
        && after.runs[|db.runs|].team == Some(m.team) && after.runs[|db.runs|].salesman == Some(m.user);
      assert RunGiven(db, after, m);
    }
  }

  // ---- Assigning by hand ----

  /** The lead's row, its SLA and its history after a hand-over. */
  predicate HandedOver(db: Db, after: Db, id: nat, to: Owner, kind: Kind, env: Env) {
    && id < |db.leads| && after.leads == db.leads[id := db.leads[id].(owner := to)]
    && after.slas == ResetSlas(db.slas, id, env)
    && after.history == db.history + [Assignment(id, db.leads[id].owner, to, kind, None, env.now)]
  }

  /** By hand, a salesman comes with the team given or keeps the lead's; the
      salesman alone is told. */
  lemma HandAssignment(db: Db, id: nat, salesman: nat, team: nat, env: Env)
    requires id < |db.leads|
    ensures var given := AssignToSalesman(db, id, salesman, Some(team), env);
      && HandedOver(db, given, id, Owner(Some(team), Some(salesman)), MANUAL, env)
      && given.notices == db.notices + [Assigned(id, salesman)]
    ensures var kept := AssignToSalesman(db, id, salesman, None, env);
      && HandedOver(db, kept, id, Owner(db.leads[id].owner.team, Some(salesman)), MANUAL, env)
      && kept.notices == db.notices + [Assigned(id, salesman)]
  {}

  /** By hand, a team takes the lead without a salesman; its head is told. */
  lemma TeamAssignment(db: Db, id: nat, team: nat, env: Env)
    requires id < |db.leads| && team < |db.teams|
    ensures var after := AssignToTeam(db, id, Some(team), env);
      && HandedOver(db, after, id, Owner(Some(team), None), MANUAL, env)
      && after.notices == db.notices + [PickSalesman(id, db.teams[team].head)]
  {
    assert db.notices + [] + [PickSalesman(id, db.teams[team].head)]
        == db.notices + [PickSalesman(id, db.teams[team].head)];
  }

  // ---- Retry and escalation ----

  predicate AttemptFor(a: Attempt, lead: nat, team: Option<nat>) {
    a.lead == lead && team == Some(a.team)
  }

  /** The attempt numbers recorded for a lead in a team, in order. */
  function AttemptNumbers(attempts: seq<Attempt>, lead: nat, team: Option<nat>): seq<int> {
    if attempts == [] then []
    else
      var n := |attempts| - 1;
      AttemptNumbers(attempts[..n], lead, team)
        + (if AttemptFor(attempts[n], lead, team) then [attempts[n].number] else [])
  }

  function AttemptCount(db: Db, lead: nat, team: Option<nat>): nat {
    |AttemptNumbers(db.attempts, lead, team)|
  }

  function RetryPool(db: Db, lead: Lead): seq<Member> {
    Prefer(EligiblePool(db, lead.company, lead.language, TEAM_THEN_SALESMAN, lead.owner.team), lead.owner.salesman)
  }

  function RetryWithinTeam(db: Db, lead: Lead, number: nat, env: Env): Db
    requires lead.id < |db.leads| && number > 0
  {
    var pool := RetryPool(db, lead);
    if pool == [] then Notify(db, ManualRequired(lead.id))
    else
      var member := pool[(number - 1) % |pool|];
      Assign(db.(attempts := db.attempts + [Attempt(lead.id, member.team, member.user, number)]),
             lead.id, Owner(Some(member.team), Some(member.user)), RETRY, None, env)
  }

  /** A lead without a team ranks below every team. */
  function OrderOf(db: Db, team: Option<nat>): int {
    if team.Some? && team.value < |db.teams| then db.teams[team.value].order else -1
  }

  function EscalateNextTeam(db: Db, lead: Lead, policy: Policy, env: Env): Db
    requires lead.id < |db.leads|
  {
    if lead.origin == BROKER then Notify(db, ManualRequired(lead.id))
    else
      var next := NextTeam(db.teams, lead.company, OrderOf(db, lead.owner.team));
      if next == None then Notify(db, ManualRequired(lead.id))
      else Distribute(db, lead, policy, None, next, env)
  }

  /** The retry-and-escalate expiry method. */
  function HandleExpiry(db: Db, lead: Lead, policy: Policy, env: Env): Db
    requires lead.id < |db.leads|
  {
    var count := AttemptCount(db, lead.id, lead.owner.team);
    if count < policy.attempts then RetryWithinTeam(db, lead, count + 1, env)
    else EscalateNextTeam(db, lead, policy, env)
  }
}
