/** SLA expiry (`SLAExpiryService` in apps/distribution/services.py and the job
    in apps/leads/tasks.py). */
module SlaExpiry {
  import opened Text
  import opened Crm
  import opened Selectors
  import opened Strategies
  import opened Distribution

  datatype Outcome = Skipped | Handled | Failed

  function MethodFor(lead: Lead, policy: Policy): ExpiryMethod {
    if lead.origin == BROKER then ManualExpiry else policy.expiry
  }

  function MarkBreached(db: Db, id: nat, lead: Lead, policy: Policy): Db
    requires id < |db.slas|
  {
    db.(slas := db.slas[id := db.slas[id].(status := BREACHED)],
        breaches := db.breaches + [Breach(id, lead.id, MethodFor(lead, policy))],
        notices := db.notices + [Cleared(lead.id, lead.owner.salesman)])
  }

  function ApplyMethod(db: Db, lead: Lead, policy: Policy, env: Env): Db
    requires lead.id < |db.leads|
  {
    match MethodFor(lead, policy)
    case RoundRobinExpiry => Distribute(db, lead, policy, None, None, env)
    case ByTurnExpiry => Distribute(db, lead, policy, Some(BY_TURN), None, env)
    case RetryTeamEscalation => HandleExpiry(db, lead, policy, env)
    case ManualExpiry => Notify(db, ManualRequired(lead.id))
  }

  /** Handling one instance; `sla` and `lead` are the copies the job loaded. */
  function ProcessInstance(db: Db, id: nat, sla: Sla, lead: Lead, policy: Policy, env: Env): (Db, bool)
    requires id < |db.slas| && lead.id < |db.leads|
  {
    if sla.status != ACTIVE then (db, false)
    else (ApplyMethod(MarkBreached(db, id, lead, policy), lead, policy, env), true)
  }

  predicate WellFormed(db: Db) {
    && (forall i :: 0 <= i < |db.leads| ==> db.leads[i].id == i)
    && (forall i :: 0 <= i < |db.slas| ==> db.slas[i].lead < |db.leads|)
    && (forall i :: 0 <= i < |db.breaches| ==> db.breaches[i].sla < |db.slas|)
  }

  /** One run of the job. An exception inside the savepoint undoes it all. */
  function ExpireSlaInstance(db: Db, id: nat, policy: Policy, env: Env, fails: bool): (Db, Outcome)
    requires WellFormed(db)
  {
    if id >= |db.slas| || db.slas[id].status != ACTIVE then (db, Skipped)
    else if fails then (db, Failed)
    else
      (ProcessInstance(db, id, db.slas[id], db.leads[db.slas[id].lead], policy, env).0, Handled)
  }

  function BreachCount(breaches: seq<Breach>, id: nat): nat {
    if breaches == [] then 0
    else
      var n := |breaches| - 1;
      BreachCount(breaches[..n], id) + (if breaches[n].sla == id then 1 else 0)
  }

  /** One breach event exactly for each breached instance. */
  predicate BreachesMatch(db: Db) {
    forall i :: 0 <= i < |db.slas| ==>
      BreachCount(db.breaches, i) == if db.slas[i].status == BREACHED then 1 else 0
  }

  /** A lead has at most one active instance. */
  predicate OneActive(slas: seq<Sla>) {
    forall i, j :: 0 <= i < j < |slas| && slas[i].status == ACTIVE && slas[j].status == ACTIVE ==>
      slas[i].lead != slas[j].lead
  }

  /** Closing a lead, or a stage that runs no SLA, cancels what is active. */
  function CancelSlas(slas: seq<Sla>, lead: nat): seq<Sla> {
    seq(|slas|, i requires 0 <= i < |slas| =>
      if slas[i].lead == lead && slas[i].status == ACTIVE then slas[i].(status := CANCELLED) else slas[i])
  }

  /** Without a breach, instances stay, or the lead's are reset or cancelled. */
  predicate MovedOn(before: seq<Sla>, after: seq<Sla>, id: nat, env: Env) {
    after == before || after == ResetSlas(before, id, env) || after == CancelSlas(before, id)
  }

  /** A reset touches the active instances of its lead only, and opens one
      exactly if there is a deadline. */
  lemma ResetIsContained(slas: seq<Sla>, id: nat, env: Env)
    ensures var after := ResetSlas(slas, id, env);
      && |after| == |slas| + (if env.deadline.Some? then 1 else 0)
      && (forall i :: 0 <= i < |slas| ==>
            if slas[i] == Sla(id, ACTIVE) then after[i] == Sla(id, COMPLETED) else after[i] == slas[i])
      && (forall i :: |slas| <= i < |after| ==> after[i] == Sla(id, ACTIVE))
      && (OneActive(slas) ==> OneActive(after))
  {}

  /** Cancelling touches the same instances, and opens none. */
  lemma CancelIsContained(slas: seq<Sla>, id: nat)
    ensures var after := CancelSlas(slas, id);
      && |after| == |slas|
      && forall i :: 0 <= i < |slas| ==>
           if slas[i] == Sla(id, ACTIVE) then after[i] == Sla(id, CANCELLED) else after[i] == slas[i]
  {}

  /** However instances move on: closed ones stay, none is breached, and a lead
      still has one active instance at most. */
  lemma MovedOnIsContained(before: seq<Sla>, after: seq<Sla>, id: nat, env: Env)
    requires MovedOn(before, after, id, env)
    ensures |before| <= |after|
    ensures forall i :: 0 <= i < |before| ==>
      && after[i].lead == before[i].lead
      && (before[i].status != ACTIVE ==> after[i] == before[i])
      && (before[i].status == ACTIVE ==> after[i].status != BREACHED)
    ensures forall i :: |before| <= i < |after| ==> after[i] == Sla(id, ACTIVE)
    ensures OneActive(before) ==> OneActive(after)
  {
    ResetIsContained(before, id, env);
  }

  lemma {:induction false} NoBreachBeyond(breaches: seq<Breach>, id: nat)
    requires forall i :: 0 <= i < |breaches| ==> breaches[i].sla < id
    ensures BreachCount(breaches, id) == 0
  {
    if breaches != [] {
      NoBreachBeyond(breaches[..|breaches| - 1], id);
    }
  }

  lemma MovingOnKeepsBreaches(db: Db, after: Db, id: nat, env: Env)
    requires WellFormed(db) && BreachesMatch(db)
    requires after.breaches == db.breaches && MovedOn(db.slas, after.slas, id, env)
    ensures BreachesMatch(after)
  {
    MovedOnIsContained(db.slas, after.slas, id, env);
    forall i | |db.slas| <= i < |after.slas|
      ensures BreachCount(after.breaches, i) == 0
    {
      NoBreachBeyond(db.breaches, i);
    }
  }

  lemma MarkingMatches(db: Db, id: nat, lead: Lead, policy: Policy)
    requires id < |db.slas| && BreachesMatch(db)
    ensures BreachesMatch(MarkBreached(db, id, lead, policy)) <==> db.slas[id].status != BREACHED
  {
    var after := MarkBreached(db, id, lead, policy);
    assert after.breaches[..|after.breaches| - 1] == db.breaches;
    assert BreachCount(after.breaches, id) == BreachCount(db.breaches, id) + 1;
    if db.slas[id].status == BREACHED {
      assert after.slas[id].status == BREACHED;
    }
  }

  lemma DistributeMovesOn(db: Db, lead: Lead, policy: Policy, chosen: Option<Strategy>, team: Option<nat>, env: Env)
    requires lead.id < |db.leads|
    ensures var after := Distribute(db, lead, policy, chosen, team, env);
      MovedOn(db.slas, after.slas, lead.id, env) && after.breaches == db.breaches
  {
    DecidedOutcome(db, lead, policy, if chosen.Some? then chosen.value else policy.auto, team);
  }

  lemma ExpiryMovesOn(db: Db, lead: Lead, policy: Policy, env: Env)
    requires lead.id < |db.leads|
    ensures var after := HandleExpiry(db, lead, policy, env);
      MovedOn(db.slas, after.slas, lead.id, env) && after.breaches == db.breaches
  {
    var next := NextTeam(db.teams, lead.company, OrderOf(db, lead.owner.team));
    if next.Some? {
      DistributeMovesOn(db, lead, policy, None, next, env);
    }
  }

  lemma MethodMovesOn(db: Db, lead: Lead, policy: Policy, env: Env)
    requires lead.id < |db.leads|
    ensures var after := ApplyMethod(db, lead, policy, env);
      MovedOn(db.slas, after.slas, lead.id, env) && after.breaches == db.breaches
  {
    match MethodFor(lead, policy) {
      case RoundRobinExpiry => DistributeMovesOn(db, lead, policy, None, None, env);
      case ByTurnExpiry => DistributeMovesOn(db, lead, policy, Some(BY_TURN), None, env);
      case RetryTeamEscalation => ExpiryMovesOn(db, lead, policy, env);
      case ManualExpiry =>
    }
  }

  /** Expiry never reassigns a broker's lead, whatever the policy. */
  lemma BrokerLeadsStayPut(db: Db, id: nat, policy: Policy, env: Env, fails: bool)
    requires WellFormed(db) && id < |db.slas| && db.leads[db.slas[id].lead].origin == BROKER
    ensures var after := ExpireSlaInstance(db, id, policy, env, fails).0;
      after.leads == db.leads && after.history == db.history && after.attempts == db.attempts && after.runs == db.runs
  {}

  /** Handling an active copy keeps events and instances in step exactly if the
      row has not been breached meanwhile: the service itself trusts the copy,
      so two tasks that both loaded the active row would breach it twice. */
  lemma StaleCopyBreachesTwice(db: Db, id: nat, sla: Sla, lead: Lead, policy: Policy, env: Env)
    requires WellFormed(db) && BreachesMatch(db)
    requires id < |db.slas| && lead.id < |db.leads| && sla.status == ACTIVE
    ensures BreachesMatch(ProcessInstance(db, id, sla, lead, policy, env).0) <==> db.slas[id].status != BREACHED
  {
    var marked := MarkBreached(db, id, lead, policy);
    var after := ApplyMethod(marked, lead, policy, env);
    MarkingMatches(db, id, lead, policy);
    MethodMovesOn(marked, lead, policy, env);
    MovedOnIsContained(marked.slas, after.slas, lead.id, env);
    if db.slas[id].status != BREACHED {
      MovingOnKeepsBreaches(marked, after, lead.id, env);
    } else {
      assert marked.breaches[..|marked.breaches| - 1] == db.breaches;
      assert BreachCount(after.breaches, id) == 2;
      assert after.slas[id].status == BREACHED;
    }
  }

  predicate LeftWithNotices(db: Db, after: Db, lead: Lead) {
    after.notices == db.notices + [Cleared(lead.id, lead.owner.salesman), ManualRequired(lead.id)]
  }

  /** What was added to the tables is what the breach event says was done. */
  ghost predicate ActionTold(db: Db, after: Db, lead: Lead, policy: Policy)
    requires |after.breaches| == |db.breaches| + 1
  {
    var action := after.breaches[|db.breaches|].action;
    && action == (if lead.origin == BROKER then ManualExpiry else policy.expiry)
    && match action
       case ManualExpiry =>
         && (after.leads, after.history, after.runs, after.attempts) == (db.leads, db.history, db.runs, db.attempts)
         && LeftWithNotices(db, after, lead)
       case RoundRobinExpiry => UnconfinedRun(db, after, lead, policy, policy.auto)
       case ByTurnExpiry => UnconfinedRun(db, after, lead, policy, BY_TURN)
       case RetryTeamEscalation =>
         || OneAttempt(db, after, lead.id)
         || OneRun(db, after, policy.auto)
         || (after.leads == db.leads && LeftWithNotices(db, after, lead))
  }

  lemma ActionMatchesEvent(db: Db, id: nat, sla: Sla, lead: Lead, policy: Policy, env: Env)
    requires id < |db.slas| && lead.id < |db.leads| && sla.status == ACTIVE
    ensures var after := ProcessInstance(db, id, sla, lead, policy, env).0;
      |after.breaches| == |db.breaches| + 1 && ActionTold(db, after, lead, policy)
  {
    var marked := MarkBreached(db, id, lead, policy);
    MethodMovesOn(marked, lead, policy, env);
    match MethodFor(lead, policy) {
      case RoundRobinExpiry =>
        RunIsUnconfined(marked, lead, policy, None, env);
        MarkedRun(db, marked, ApplyMethod(marked, lead, policy, env), lead, policy, policy.auto);
      case ByTurnExpiry =>
        RunIsUnconfined(marked, lead, policy, Some(BY_TURN), env);
        MarkedRun(db, marked, ApplyMethod(marked, lead, policy, env), lead, policy, BY_TURN);
      case RetryTeamEscalation => RotationIsOne(marked, lead, policy, env);
      case ManualExpiry =>
    }
  }

  predicate OneRun(db: Db, after: Db, strategy: Strategy) {
    && |after.runs| == |db.runs| + 1 && after.runs[|db.runs|].strategy == strategy
    && after.attempts == db.attempts
  }

  /** The run chose among all teams: it assigned, unless its strategy declines,
      exactly if anybody at all was available. */
  ghost predicate UnconfinedRun(db: Db, after: Db, lead: Lead, policy: Policy, strategy: Strategy) {
    && OneRun(db, after, strategy)
    && (after.runs[|db.runs|].status == DONE ==>
          exists m :: m in db.members && Eligible(db, m, lead.company, lead.language, policy.scope, None)
            && RunGiven(db, after, m))
    && (strategy != Other(None) ==>
          (after.runs[|db.runs|].status == DONE <==>
           exists m :: m in db.members && Eligible(db, m, lead.company, lead.language, policy.scope, None)))
  }

  lemma RunIsUnconfined(db: Db, lead: Lead, policy: Policy, chosen: Option<Strategy>, env: Env)
    requires lead.id < |db.leads|
    ensures UnconfinedRun(db, Distribute(db, lead, policy, chosen, None, env), lead, policy, StrategyOf(policy, chosen))
  {
    RunIsOne(db, lead, policy, chosen, None, env);
    DistributeFollowsTables(db, lead, policy, chosen, None, env);
  }

  /** Marking the breach first changes nothing the run reads. */
  lemma MarkedRun(db: Db, marked: Db, after: Db, lead: Lead, policy: Policy, strategy: Strategy)
    requires UnconfinedRun(marked, after, lead, policy, strategy)
    requires (marked.users, marked.teams, marked.members) == (db.users, db.teams, db.members)
    requires (marked.runs, marked.attempts) == (db.runs, db.attempts)
    ensures UnconfinedRun(db, after, lead, policy, strategy)
  {
    forall m
      ensures Eligible(db, m, lead.company, lead.language, policy.scope, None)
         <==> Eligible(marked, m, lead.company, lead.language, policy.scope, None)
      ensures RunGiven(db, after, m) <==> RunGiven(marked, after, m)
    {
    }
  }

  predicate OneAttempt(db: Db, after: Db, id: nat) {
    && |after.attempts| == |db.attempts| + 1 && after.attempts[|db.attempts|].lead == id
    && after.runs == db.runs
  }

  lemma RunIsOne(db: Db, lead: Lead, policy: Policy, chosen: Option<Strategy>, team: Option<nat>, env: Env)
    requires lead.id < |db.leads|
    ensures OneRun(db, Distribute(db, lead, policy, chosen, team, env),
              if chosen.Some? then chosen.value else policy.auto)
  {
    DistributeOutcome(db, lead, policy, chosen, team, env);
    DistributeFrame(db, lead, policy, chosen, team, env);
  }

  lemma RotationIsOne(db: Db, lead: Lead, policy: Policy, env: Env)
    requires lead.id < |db.leads|
    ensures var after := HandleExpiry(db, lead, policy, env);
      || OneAttempt(db, after, lead.id)
      || OneRun(db, after, policy.auto)
      || after == Notify(db, ManualRequired(lead.id))
  {
    var next := NextTeam(db.teams, lead.company, OrderOf(db, lead.owner.team));
    if next.Some? {
      RunIsOne(db, lead, policy, None, next, env);
    }
  }

  /** Handled exactly when the row was active and nothing failed; then the
      instance is breached with one event, which names the action, and
      otherwise nothing at all has changed. */
  lemma ExpiryOutcome(db: Db, id: nat, policy: Policy, env: Env, fails: bool)
    requires WellFormed(db)
    ensures var (after, outcome) := ExpireSlaInstance(db, id, policy, env, fails);
      && (outcome == Handled <==> id < |db.slas| && db.slas[id].status == ACTIVE && !fails)
      && (outcome == Handled ==>
            && id < |after.slas| && after.slas[id].status == BREACHED
            && after.breaches == db.breaches
                 + [Breach(id, db.slas[id].lead,
                      if db.leads[db.slas[id].lead].origin == BROKER then ManualExpiry else policy.expiry)])
      && (outcome != Handled ==> after == db)
  {
    if id < |db.slas| && db.slas[id].status == ACTIVE && !fails {
      var lead := db.leads[db.slas[id].lead];
      var marked := MarkBreached(db, id, lead, policy);
      MethodMovesOn(marked, lead, policy, env);
      MovedOnIsContained(marked.slas, ApplyMethod(marked, lead, policy, env).slas, lead.id, env);
    }
  }
}
