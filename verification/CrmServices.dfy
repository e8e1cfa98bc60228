/** The distribution and expiry services as they change the tables in place
    (apps/distribution/services.py, apps/distribution/strategies and
    apps/leads/tasks.py), each tied to its specification on table values. */
module CrmServices {
  import opened Text
  import opened Crm
  import opened Selectors
  import opened Strategies
  import Distribution
  import SlaExpiry

  /** Where an exception strikes while an expiry is being handled; the action
      may raise midway and leave the tables in any state. */
  datatype Fault = AfterStatus | AfterEvent | InAction(left: Db) | AfterAction

  class Store {
    var users: seq<User>
    var teams: seq<Team>
    var members: seq<Member>
    var leads: seq<Lead>
    var history: seq<Assignment>
    var runs: seq<Run>
    var candidates: seq<Candidate>
    var attempts: seq<Attempt>
    var slas: seq<Sla>
    var breaches: seq<Breach>
    var notices: seq<Notice>
    var pointers: map<PointerKey, nat>
    var jobLog: seq<nat>

    function View(): Db
      reads this
    {
      Db(users, teams, members, leads, history, runs, candidates, attempts, slas, breaches, notices, pointers)
    }

    constructor (users: seq<User>, teams: seq<Team>, members: seq<Member>)
      ensures View() == Db(users, teams, members, [], [], [], [], [], [], [], [], map[]) && jobLog == []
    {
      this.users, this.teams, this.members := users, teams, members;
      leads, history, runs, candidates, attempts := [], [], [], [], [];
      slas, breaches, notices, pointers, jobLog := [], [], [], map[], [];
    }

    /** Completes the lead's active instances and opens a fresh one. */
    method OpenInstance(id: nat, env: Env)
      modifies this`slas
      ensures slas == Distribution.ResetSlas(old(slas), id, env)
    {
      var i := 0;
      while i < |slas|
        invariant i <= |slas| == |old(slas)|
        invariant forall k :: i <= k < |slas| ==> slas[k] == old(slas)[k]
        invariant forall k :: 0 <= k < i ==> slas[k] == Distribution.ResetSlas(old(slas), id, env)[k]
      {
        if slas[i].lead == id && slas[i].status == ACTIVE {
          slas := slas[i := slas[i].(status := COMPLETED)];
        }
        i := i + 1;
      }
      if env.deadline.Some? {
        slas := slas + [Sla(id, ACTIVE)];
      }
    }

    method Assign(id: nat, to: Owner, kind: Kind, strategy: Option<Strategy>, env: Env)
      requires id < |leads|
      modifies this
      ensures View() == Distribution.Assign(old(View()), id, to, kind, strategy, env) && jobLog == old(jobLog)
    {
      var row := leads[id];
      var from := row.owner;
      leads := leads[id := row.(owner := to)];
      OpenInstance(id, env);
      history := history + [Assignment(id, from, to, kind, strategy, env.now)];
      if to.salesman.Some? {
        notices := notices + [Assigned(id, to.salesman.value)];
      }
    }

    method AssignToSalesman(id: nat, salesman: nat, team: Option<nat>, env: Env)
      requires id < |leads|
      modifies this
      ensures View() == Distribution.AssignToSalesman(old(View()), id, salesman, team, env) && jobLog == old(jobLog)
    {
      var lead := leads[id];
      Assign(id, Owner(if team.Some? then team else lead.owner.team, Some(salesman)), MANUAL, None, env);
    }

    method AssignToTeam(id: nat, team: Option<nat>, env: Env)
      requires id < |leads|
      modifies this
      ensures View() == Distribution.AssignToTeam(old(View()), id, team, env) && jobLog == old(jobLog)
    {
      Assign(id, Owner(team, None), MANUAL, None, env);
      notices := notices + [PickSalesman(id, Distribution.HeadOf(View(), team))];
    }

    /** Round robin's scan for the best key, over loads fetched in one batch. */
    method LeastLoadedMember(company: nat, pool: seq<Member>) returns (best: nat)
      requires pool != []
      ensures best < |pool| && best == LeastLoaded(LoadsOf(View(), company, pool))
    {
      var loads := BatchLoads(View(), company, Distribution.UsersOf(pool));
      BatchRefinesSingle(View(), company, Distribution.UsersOf(pool));
      ghost var all := LoadsOf(View(), company, pool);
      best := 0;
      var i := 1;
      assert all[..1] == [all[0]];
      while i < |pool|
        invariant 1 <= i <= |pool| && best < i
        invariant best == LeastLoaded(all[..i])
      {
        assert Distribution.UsersOf(pool)[i] == pool[i].user && Distribution.UsersOf(pool)[best] == pool[best].user;
        assert loads[pool[i].user] == all[i] && loads[pool[best].user] == all[best];
        assert all[..i + 1][..i] == all[..i];
        if Before(loads[pool[i].user], loads[pool[best].user]) {
          best := i;
        }
        i := i + 1;
      }
      assert all[..i] == all;
    }

    method SelectCandidate(strategy: Strategy, company: nat, scope: Scope, language: Option<nat>, pool: seq<Member>)
      returns (decision: Decision)
      requires pool != []
      modifies this`pointers
      ensures (View(), decision) == Select(old(View()), strategy, company, scope, language, pool)
    {
      match strategy {
        case ROUND_ROBIN =>
          var best := LeastLoadedMember(company, pool);
          decision := Chosen(pool[best]);
        case BY_TURN =>
          var key := PointerKey(company, scope, language);
          var current := if key in pointers then pointers[key] else 0;
          var index := current % |pool|;
          pointers := pointers[key := (index + 1) % |pool|];
          decision := Chosen(pool[index]);
        case Other(choice) =>
          decision := if choice.Some? then Chosen(pool[choice.value % |pool|]) else NOBODY;
      }
    }

    static lemma RowsStep(run: nat, pool: seq<Member>, i: nat, loads: map<nat, Load>, chosen: Option<nat>)
      requires i < |pool|
      ensures Distribution.CandidateRows(run, pool[i..], loads, chosen) ==
        [Distribution.CandidateRow(run, pool[i].user, loads, chosen)]
        + Distribution.CandidateRows(run, pool[i + 1..], loads, chosen)
    {
      assert pool[i..][0] == pool[i] && pool[i..][1..] == pool[i + 1..];
    }

    static method BuildRows(run: nat, pool: seq<Member>, loads: map<nat, Load>, chosen: Option<nat>)
      returns (rows: seq<Candidate>)
      ensures rows == Distribution.CandidateRows(run, pool, loads, chosen)
    {
      rows := [];
      var i := 0;
      while i < |pool|
        invariant i <= |pool|
        invariant rows + Distribution.CandidateRows(run, pool[i..], loads, chosen)
               == Distribution.CandidateRows(run, pool, loads, chosen)
      {
        RowsStep(run, pool, i, loads, chosen);
        rows := rows + [Distribution.CandidateRow(run, pool[i].user, loads, chosen)];
        i := i + 1;
      }
    }

    method RecordCandidates(run: nat, company: nat, pool: seq<Member>, decision: Decision)
      modifies this`candidates
      ensures View() == Distribution.RecordCandidates(old(View()), run, company, pool, decision)
    {
      var loads := BatchLoads(View(), company, Distribution.UsersOf(pool));
      var rows := BuildRows(run, pool, loads, decision.salesman);
      candidates := candidates + rows;
    }

    method CloseWithoutCandidate(run: nat, id: nat)
      requires run < |runs| && runs[run].team == None && runs[run].salesman == None
      modifies this`runs, this`notices
      ensures View() == Distribution.Notify(Distribution.CloseRun(old(View()), run, NO_CANDIDATE, NOBODY),
        ManualRequired(id))
    {
      runs := runs[run := runs[run].(status := NO_CANDIDATE)];
      notices := notices + [ManualRequired(id)];
    }

    method Distribute(lead: Lead, policy: Policy, chosen: Option<Strategy>, team: Option<nat>, env: Env)
      requires lead.id < |leads|
      modifies this
      ensures View() == Distribution.Distribute(old(View()), lead, policy, chosen, team, env) && jobLog == old(jobLog)
    {
      var strategy := if chosen.Some? then chosen.value else policy.auto;
      var run := |runs|;
      runs := runs + [Run(lead.id, strategy, policy.scope, PENDING, None, None)];
      var pool := EligiblePool(View(), lead.company, lead.language, policy.scope, team);
      pool := Distribution.Prefer(pool, lead.owner.salesman);
      if pool == [] {
        CloseWithoutCandidate(run, lead.id);
        return;
      }
      var decision := SelectCandidate(strategy, lead.company, policy.scope, lead.language, pool);
      RecordCandidates(run, lead.company, pool, decision);
      if decision.salesman == None && decision.team == None {
        CloseWithoutCandidate(run, lead.id);
        return;
      }
      if policy.scope == TEAM_HEAD_DECIDES {
        AssignToTeam(lead.id, decision.team, env);
      } else {
        Assign(lead.id, Owner(decision.team, decision.salesman), AUTO, Some(strategy), env);
      }
      runs := runs[run := runs[run].(status := DONE, team := decision.team, salesman := decision.salesman)];
    }

    method CountAttempts(lead: nat, team: Option<nat>) returns (n: nat)
      ensures n == Distribution.AttemptCount(View(), lead, team)
    {
      n := 0;
      var i := 0;
      while i < |attempts|
        invariant i <= |attempts|
        invariant n == |Distribution.AttemptNumbers(attempts[..i], lead, team)|
      {
        assert attempts[..i + 1][..i] == attempts[..i];
        if Distribution.AttemptFor(attempts[i], lead, team) {
          n := n + 1;
        }
        i := i + 1;
      }
      assert attempts[..i] == attempts;
    }

    method HandleExpiry(lead: Lead, policy: Policy, env: Env)
      requires lead.id < |leads|
      modifies this
      ensures View() == Distribution.HandleExpiry(old(View()), lead, policy, env) && jobLog == old(jobLog)
    {
      var count := CountAttempts(lead.id, lead.owner.team);
      if count < policy.attempts {
        RetryWithinTeam(lead, count + 1, env);
      } else {
        EscalateNextTeam(lead, policy, env);
      }
    }

    method RetryWithinTeam(lead: Lead, number: nat, env: Env)
      requires lead.id < |leads| && number > 0
      modifies this
      ensures View() == Distribution.RetryWithinTeam(old(View()), lead, number, env) && jobLog == old(jobLog)
    {
      var pool := EligiblePool(View(), lead.company, lead.language, TEAM_THEN_SALESMAN, lead.owner.team);
      pool := Distribution.Prefer(pool, lead.owner.salesman);
      if pool == [] {
        notices := notices + [ManualRequired(lead.id)];
        return;
      }
      var member := pool[(number - 1) % |pool|];
      attempts := attempts + [Attempt(lead.id, member.team, member.user, number)];
      Assign(lead.id, Owner(Some(member.team), Some(member.user)), RETRY, None, env);
    }

    method EscalateNextTeam(lead: Lead, policy: Policy, env: Env)
      requires lead.id < |leads|
      modifies this
      ensures View() == Distribution.EscalateNextTeam(old(View()), lead, policy, env) && jobLog == old(jobLog)
    {
      if lead.origin == BROKER {
        notices := notices + [ManualRequired(lead.id)];
        return;
      }
      var next := NextTeam(teams, lead.company, Distribution.OrderOf(View(), lead.owner.team));
      if next == None {
        notices := notices + [ManualRequired(lead.id)];
        return;
      }
      Distribute(lead, policy, None, next, env);
    }

    /** Handles one instance on the copies the job loaded; `raised` leaves the
        tables wherever the exception struck. */
    method ProcessInstance(id: nat, sla: Sla, lead: Lead, policy: Policy, env: Env, fault: Option<Fault>)
      returns (handled: bool, raised: bool)
      requires id < |slas| && lead.id < |leads|
      modifies this
      ensures raised <==> fault.Some? && sla.status == ACTIVE
      ensures !raised ==> (View(), handled) == SlaExpiry.ProcessInstance(old(View()), id, sla, lead, policy, env)
      ensures jobLog == old(jobLog)
    {
      if sla.status != ACTIVE {
        return false, false;
      }
      slas := slas[id := slas[id].(status := BREACHED)];
      if fault == Some(AfterStatus) {
        return false, true;
      }
      var action := policy.expiry;
      if lead.origin == BROKER {
        action := ManualExpiry;
      }
      breaches := breaches + [Breach(id, lead.id, action)];
      notices := notices + [Cleared(lead.id, lead.owner.salesman)];
      if fault == Some(AfterEvent) {
        return false, true;
      }
      if fault.Some? && fault.value.InAction? {
        Overwrite(fault.value.left);
        return false, true;
      }
      match action {
        case RoundRobinExpiry => Distribute(lead, policy, None, None, env);
        case ByTurnExpiry => Distribute(lead, policy, Some(BY_TURN), None, env);
        case RetryTeamEscalation => HandleExpiry(lead, policy, env);
        case ManualExpiry => notices := notices + [ManualRequired(lead.id)];
      }
      return true, fault.Some? && fault.value.AfterAction?;
    }

    method OverwriteLeads(saved: Db)
      modifies this`users, this`teams, this`members, this`leads, this`history, this`runs
      ensures (users, teams, members) == (saved.users, saved.teams, saved.members)
      ensures (leads, history, runs) == (saved.leads, saved.history, saved.runs)
    {
      users, teams, members := saved.users, saved.teams, saved.members;
      leads, history, runs := saved.leads, saved.history, saved.runs;
    }

    method OverwriteRest(saved: Db)
      modifies this`candidates, this`attempts, this`slas, this`breaches, this`notices, this`pointers
      ensures (candidates, attempts, slas) == (saved.candidates, saved.attempts, saved.slas)
      ensures (breaches, notices, pointers) == (saved.breaches, saved.notices, saved.pointers)
    {
      candidates, attempts, slas := saved.candidates, saved.attempts, saved.slas;
      breaches, notices, pointers := saved.breaches, saved.notices, saved.pointers;
    }

    /** Puts the tables in a given state, such as that of a savepoint. */
    method Overwrite(saved: Db)
      modifies this
      ensures View() == saved && jobLog == old(jobLog)
    {
      OverwriteLeads(saved);
      OverwriteRest(saved);
    }

    /** The job: wherever the exception strikes, the tables are as before and
        only the job log tells. */
    method ExpireSlaInstance(id: nat, policy: Policy, env: Env, fault: Option<Fault>)
      returns (outcome: SlaExpiry.Outcome)
      requires SlaExpiry.WellFormed(View())
      modifies this
      ensures (View(), outcome) == SlaExpiry.ExpireSlaInstance(old(View()), id, policy, env, fault.Some?)
      ensures jobLog == if outcome == SlaExpiry.Failed then old(jobLog) + [id] else old(jobLog)
    {
      if id >= |slas| || slas[id].status != ACTIVE {
        return SlaExpiry.Skipped;
      }
      var sla := slas[id];
      var lead := leads[sla.lead];
      var savepoint := View();
      var handled, raised := ProcessInstance(id, sla, lead, policy, env, fault);
      if raised {
        Overwrite(savepoint);
        jobLog := jobLog + [id];
        return SlaExpiry.Failed;
      }
      return SlaExpiry.Handled;
    }
  }
}
