/** The tables lead distribution works on. A row is named by its position, and
    rows are never deleted. */
module Crm {
  import opened Text

  datatype Origin = DIRECT | BROKER
  datatype Scope = TEAM_THEN_SALESMAN | TEAM_HEAD_DECIDES | ALL_SALESMEN
  datatype Kind = MANUAL | AUTO | RETRY
  datatype ExpiryMethod = RoundRobinExpiry | ByTurnExpiry | RetryTeamEscalation | ManualExpiry

  /** `Other` stands for a strategy registered elsewhere, which picks a member
      of the pool or nobody. */
  datatype Strategy = ROUND_ROBIN | BY_TURN | Other(choice: Option<nat>)

  datatype Team = Team(company: nat, order: int, active: bool, head: Option<nat>)
  datatype User = User(active: bool, available: bool, languages: set<nat>)
  datatype Member = Member(team: nat, user: nat, available: bool)
  datatype Owner = Owner(team: Option<nat>, salesman: Option<nat>)

  /** A lead row, and equally a copy of one held in memory. */
  datatype Lead = Lead(id: nat, company: nat, language: Option<nat>, origin: Origin, active: bool, owner: Owner)

  datatype Assignment = Assignment(lead: nat, from: Owner, to: Owner, kind: Kind, strategy: Option<Strategy>, at: int)

  datatype RunStatus = PENDING | DONE | NO_CANDIDATE
  datatype Run = Run(lead: nat, strategy: Strategy, scope: Scope, status: RunStatus,
                     team: Option<nat>, salesman: Option<nat>)
  datatype Candidate = Candidate(run: nat, user: nat, load: nat, lastReceived: Option<int>, rejected: bool)
  datatype Attempt = Attempt(lead: nat, team: nat, salesman: nat, number: int)

  datatype SlaStatus = ACTIVE | BREACHED | COMPLETED | CANCELLED
  datatype Sla = Sla(lead: nat, status: SlaStatus)
  datatype Breach = Breach(sla: nat, lead: nat, action: ExpiryMethod)

  datatype Notice =
    | ManualRequired(lead: nat)
    | PickSalesman(lead: nat, head: Option<nat>)
    | Assigned(lead: nat, salesman: nat)
    | Cleared(lead: nat, recipient: Option<nat>)

  datatype PointerKey = PointerKey(company: nat, scope: Scope, language: Option<nat>)

  datatype Db = Db(
    users: seq<User>, teams: seq<Team>, members: seq<Member>, leads: seq<Lead>,
    history: seq<Assignment>, runs: seq<Run>, candidates: seq<Candidate>, attempts: seq<Attempt>,
    slas: seq<Sla>, breaches: seq<Breach>, notices: seq<Notice>, pointers: map<PointerKey, nat>)

  /** The company's policy values that distribution reads. */
  datatype Policy = Policy(auto: Strategy, scope: Scope, attempts: int, expiry: ExpiryMethod)

  /** The clock, and the deadline (if any) of an SLA opened now. */
  datatype Env = Env(now: int, deadline: Option<int>)
}

/** Queries over those tables (apps/distribution/selectors.py). */
module Selectors {
  import opened Text
  import opened Crm

  predicate Eligible(db: Db, m: Member, company: nat, language: Option<nat>, scope: Scope, team: Option<nat>) {
    && m.team < |db.teams| && m.user < |db.users|
    && db.teams[m.team].company == company && db.teams[m.team].active
    && m.available && db.users[m.user].active && db.users[m.user].available
    && (scope != ALL_SALESMEN && team.Some? ==> m.team == team.value)
    && (language.Some? ==> language.value in db.users[m.user].languages)
  }

  function MembersOf(db: Db, rows: seq<Member>, user: nat, company: nat, language: Option<nat>, scope: Scope,
                     team: Option<nat>): seq<Member> {
    if rows == [] then []
    else
      (if rows[0].user == user && Eligible(db, rows[0], company, language, scope, team) then [rows[0]] else [])
      + MembersOf(db, rows[1..], user, company, language, scope, team)
  }

  function PoolBelow(db: Db, bound: nat, company: nat, language: Option<nat>, scope: Scope,
                     team: Option<nat>): seq<Member> {
    if bound == 0 then []
    else PoolBelow(db, bound - 1, company, language, scope, team)
         + MembersOf(db, db.members, bound - 1, company, language, scope, team)
  }

  /** The eligible memberships, ordered by user. */
  function EligiblePool(db: Db, company: nat, language: Option<nat>, scope: Scope, team: Option<nat>): seq<Member> {
    PoolBelow(db, |db.users|, company, language, scope, team)
  }

  lemma {:induction false} MembersOfExact(db: Db, rows: seq<Member>, user: nat, company: nat, language: Option<nat>,
                                          scope: Scope, team: Option<nat>, m: Member)
    ensures m in MembersOf(db, rows, user, company, language, scope, team) <==>
      m in rows && m.user == user && Eligible(db, m, company, language, scope, team)
  {
    if rows != [] {
      MembersOfExact(db, rows[1..], user, company, language, scope, team, m);
      assert m in rows <==> m == rows[0] || m in rows[1..];
    }
  }

  predicate ByUser(pool: seq<Member>) {
    forall i, j :: 0 <= i < j < |pool| ==> pool[i].user <= pool[j].user
  }

  lemma ByUserAppend(front: seq<Member>, last: seq<Member>, user: nat)
    requires ByUser(front) && forall m :: m in front ==> m.user < user
    requires forall m :: m in last ==> m.user == user
    ensures ByUser(front + last)
  {
    var pool := front + last;
    forall i, j | 0 <= i < j < |pool|
      ensures pool[i].user <= pool[j].user
    {
      assert i < |front| ==> pool[i] in front;
      assert i >= |front| ==> pool[i] in last;
      assert j >= |front| ==> pool[j] in last;
    }
  }

  lemma {:induction false} PoolBelowExact(db: Db, bound: nat, company: nat, language: Option<nat>, scope: Scope,
                                          team: Option<nat>)
    ensures var pool := PoolBelow(db, bound, company, language, scope, team);
      && (forall m :: m in pool <==>
            m in db.members && m.user < bound && Eligible(db, m, company, language, scope, team))
      && ByUser(pool)
  {
    if bound > 0 {
      PoolBelowExact(db, bound - 1, company, language, scope, team);
      var front := PoolBelow(db, bound - 1, company, language, scope, team);
      var last := MembersOf(db, db.members, bound - 1, company, language, scope, team);
      forall m
        ensures m in last <==>
          m in db.members && m.user == bound - 1 && Eligible(db, m, company, language, scope, team)
      {
        MembersOfExact(db, db.members, bound - 1, company, language, scope, team, m);
      }
      ByUserAppend(front, last, bound - 1);
    }
  }

  /** The pool is exactly the eligible memberships, in the order of the user
      ids that the by-turn cursor relies on. */
  lemma PoolExact(db: Db, company: nat, language: Option<nat>, scope: Scope, team: Option<nat>)
    ensures var pool := EligiblePool(db, company, language, scope, team);
      && (forall m :: m in pool <==> m in db.members && Eligible(db, m, company, language, scope, team))
      && ByUser(pool)
  {
    PoolBelowExact(db, |db.users|, company, language, scope, team);
  }

  /** How often a membership occurs. */
  function Times(rows: seq<Member>, m: Member): nat {
    if rows == [] then 0 else (if rows[0] == m then 1 else 0) + Times(rows[1..], m)
  }

  lemma {:induction false} TimesConcat(a: seq<Member>, b: seq<Member>, m: Member)
    ensures Times(a + b, m) == Times(a, m) + Times(b, m)
  {
    if a == [] {
      assert a + b == b;
    } else {
      TimesConcat(a[1..], b, m);
      assert (a + b)[1..] == a[1..] + b;
    }
  }

  lemma {:induction false} MembersOfTimes(db: Db, rows: seq<Member>, user: nat, company: nat, language: Option<nat>,
                                          scope: Scope, team: Option<nat>, m: Member)
    ensures Times(MembersOf(db, rows, user, company, language, scope, team), m)
      == if m.user == user && Eligible(db, m, company, language, scope, team) then Times(rows, m) else 0
  {
    if rows != [] {
      MembersOfTimes(db, rows[1..], user, company, language, scope, team, m);
      var kept := if rows[0].user == user && Eligible(db, rows[0], company, language, scope, team) then [rows[0]]
        else [];
      TimesConcat(kept, MembersOf(db, rows[1..], user, company, language, scope, team), m);
    }
  }

  lemma {:induction false} PoolBelowTimes(db: Db, bound: nat, company: nat, language: Option<nat>, scope: Scope,
                                          team: Option<nat>, m: Member)
    ensures Times(PoolBelow(db, bound, company, language, scope, team), m)
      == if m.user < bound && Eligible(db, m, company, language, scope, team) then Times(db.members, m) else 0
  {
    if bound > 0 {
      PoolBelowTimes(db, bound - 1, company, language, scope, team, m);
      MembersOfTimes(db, db.members, bound - 1, company, language, scope, team, m);
      TimesConcat(PoolBelow(db, bound - 1, company, language, scope, team),
        MembersOf(db, db.members, bound - 1, company, language, scope, team), m);
    }
  }

  /** The pool repeats no membership and drops none that is eligible. */
  lemma PoolTimes(db: Db, company: nat, language: Option<nat>, scope: Scope, team: Option<nat>, m: Member)
    ensures Times(EligiblePool(db, company, language, scope, team), m)
      == if Eligible(db, m, company, language, scope, team) then Times(db.members, m) else 0
  {
    PoolBelowTimes(db, |db.users|, company, language, scope, team, m);
  }

  /** The pool, told from the rows: available members of active teams of the
      company whose user is active, available and speaks the language asked
      for, in the team asked for unless all salesmen are in scope. */
  lemma PoolMeans(db: Db, company: nat, language: Option<nat>, scope: Scope, team: Option<nat>, m: Member)
    requires m.team < |db.teams| && m.user < |db.users|
    ensures m in EligiblePool(db, company, language, scope, team) <==>
      && m in db.members && m.available
      && db.teams[m.team].active && db.teams[m.team].company == company
      && db.users[m.user].active && db.users[m.user].available
      && (language == None || language.value in db.users[m.user].languages)
      && (scope == ALL_SALESMEN || team == None || team == Some(m.team))
  {
    PoolExact(db, company, language, scope, team);
  }

  // ---- Candidate load ----

  predicate CountsFor(lead: Lead, company: nat, user: nat) {
    lead.company == company && lead.active && lead.owner.salesman == Some(user)
  }

  function ActiveCount(leads: seq<Lead>, company: nat, user: nat): nat {
    if leads == [] then 0
    else
      var n := |leads| - 1;
      ActiveCount(leads[..n], company, user) + (if CountsFor(leads[n], company, user) then 1 else 0)
  }

  predicate ReceivedBy(h: Assignment, leads: seq<Lead>, company: nat, user: nat) {
    h.to.salesman == Some(user) && h.lead < |leads| && leads[h.lead].company == company
  }

  function Later(a: Option<int>, b: int): int {
    if a.Some? && a.value > b then a.value else b
  }

  function LastReceived(history: seq<Assignment>, leads: seq<Lead>, company: nat, user: nat): Option<int> {
    if history == [] then None
    else
      var n := |history| - 1;
      var before := LastReceived(history[..n], leads, company, user);
      if ReceivedBy(history[n], leads, company, user) then Some(Later(before, history[n].at)) else before
  }

  /** The single-user query. */
  function CandidateLoad(db: Db, company: nat, user: nat): (nat, Option<int>) {
    (ActiveCount(db.leads, company, user), LastReceived(db.history, db.leads, company, user))
  }

  /** The positions of the active leads of a user. */
  function Held(leads: seq<Lead>, company: nat, user: nat): set<nat> {
    set i | 0 <= i < |leads| && leads[i].company == company && leads[i].active
            && leads[i].owner.salesman == Some(user)
  }

  /** What the single-user query means: how many rows count, and the latest of
      the times received, if there are any. */
  lemma LoadExact(db: Db, company: nat, user: nat)
    ensures var (count, latest) := CandidateLoad(db, company, user);
      && count == |Held(db.leads, company, user)|
      && (latest == None <==> forall i :: 0 <= i < |db.history| ==>
        !ReceivedBy(db.history[i], db.leads, company, user))
      && (latest.Some? ==>
            && (exists i :: 0 <= i < |db.history| && ReceivedBy(db.history[i], db.leads, company, user)
                  && db.history[i].at == latest.value)
            && forall i :: 0 <= i < |db.history| && ReceivedBy(db.history[i], db.leads, company, user) ==>
                 db.history[i].at <= latest.value)
  {
    CountExact(db.leads, company, user);
    LatestExact(db.history, db.leads, company, user);
  }

  lemma {:induction false} CountExact(leads: seq<Lead>, company: nat, user: nat)
    ensures ActiveCount(leads, company, user) == |Held(leads, company, user)|
  {
    if leads != [] {
      var n := |leads| - 1;
      CountExact(leads[..n], company, user);
      assert Held(leads, company, user)
        == Held(leads[..n], company, user) + (if CountsFor(leads[n], company, user) then {n} else {});
    } else {
      assert Held(leads, company, user) == {};
    }
  }

  lemma {:induction false} LatestExact(history: seq<Assignment>, leads: seq<Lead>, company: nat, user: nat)
    ensures var latest := LastReceived(history, leads, company, user);
      && (latest == None <==> forall i :: 0 <= i < |history| ==> !ReceivedBy(history[i], leads, company, user))
      && (latest.Some? ==>
            && (exists i :: 0 <= i < |history| && ReceivedBy(history[i], leads, company, user)
                  && history[i].at == latest.value)
            && forall i :: 0 <= i < |history| && ReceivedBy(history[i], leads, company, user) ==>
              history[i].at <= latest.value)
  {
    if history != [] {
      var n := |history| - 1;
      LatestExact(history[..n], leads, company, user);
      var before := LastReceived(history[..n], leads, company, user);
      assert forall i :: 0 <= i < n ==> history[..n][i] == history[i];
      if before.Some? {
        var i :| 0 <= i < n && ReceivedBy(history[..n][i], leads, company, user)
          && history[..n][i].at == before.value;
        assert history[i].at == before.value;
      }
    }
  }

  /** The grouped count: a user without a matching lead has no group. */
  function GroupCounts(leads: seq<Lead>, company: nat, ids: set<nat>): map<nat, nat> {
    if leads == [] then map[]
    else
      var n := |leads| - 1;
      var groups := GroupCounts(leads[..n], company, ids);
      match leads[n].owner.salesman
      case None => groups
      case Some(user) =>
        if user in ids && leads[n].company == company && leads[n].active then
          groups[user := (if user in groups then groups[user] else 0) + 1]
        else groups
  }

  function GroupLatest(history: seq<Assignment>, leads: seq<Lead>, company: nat, ids: set<nat>): map<nat, int> {
    if history == [] then map[]
    else
      var n := |history| - 1;
      var groups := GroupLatest(history[..n], leads, company, ids);
      match history[n].to.salesman
      case None => groups
      case Some(user) =>
        if user in ids && history[n].lead < |leads| && leads[history[n].lead].company == company then
          groups[user := Later(if user in groups then Some(groups[user]) else None, history[n].at)]
        else groups
  }

  function Ids(users: seq<nat>): set<nat> {
    set u | u in users
  }

  /** The batch query: two grouped queries, then a lookup per listed user. */
  function BatchLoads(db: Db, company: nat, users: seq<nat>): map<nat, (nat, Option<int>)> {
    var ids := Ids(users);
    var counts := GroupCounts(db.leads, company, ids);
    var latest := GroupLatest(db.history, db.leads, company, ids);
    map u | u in ids ::
      (if u in counts then counts[u] else 0, if u in latest then Some(latest[u]) else None)
  }

  lemma {:induction false} GroupCountsExact(leads: seq<Lead>, company: nat, ids: set<nat>, user: nat)
    requires user in ids
    ensures var groups := GroupCounts(leads, company, ids);
      (if user in groups then groups[user] else 0) == ActiveCount(leads, company, user)
  {
    if leads != [] {
      GroupCountsExact(leads[..|leads| - 1], company, ids, user);
    }
  }

  lemma {:induction false} GroupLatestExact(history: seq<Assignment>, leads: seq<Lead>, company: nat, ids: set<nat>,
                                            user: nat)
    requires user in ids
    ensures var groups := GroupLatest(history, leads, company, ids);
      (if user in groups then Some(groups[user]) else None) == LastReceived(history, leads, company, user)
  {
    if history != [] {
      GroupLatestExact(history[..|history| - 1], leads, company, ids, user);
    }
  }

  /** The batch query refines the single-user one. */
  lemma BatchRefinesSingle(db: Db, company: nat, users: seq<nat>)
    ensures var loads := BatchLoads(db, company, users);
      && (forall u :: u in loads <==> u in users)
      && forall u :: u in users ==> loads[u] == CandidateLoad(db, company, u)
  {
    var ids := Ids(users);
    forall u | u in users
      ensures BatchLoads(db, company, users)[u] == CandidateLoad(db, company, u)
    {
      GroupCountsExact(db.leads, company, ids, u);
      GroupLatestExact(db.history, db.leads, company, ids, u);
    }
  }

  function HeldBy(leads: seq<Lead>, company: nat, ids: set<nat>): nat {
    if leads == [] then 0
    else
      var n := |leads| - 1;
      var held := leads[n].company == company && leads[n].active
        && leads[n].owner.salesman.Some? && leads[n].owner.salesman.value in ids;
      HeldBy(leads[..n], company, ids) + (if held then 1 else 0)
  }

  ghost function SumOfCounts(loads: map<nat, (nat, Option<int>)>): nat {
    if loads == map[] then 0
    else
      var u :| u in loads;
      loads[u].0 + SumOfCounts(loads - {u})
  }

  lemma {:induction false} HeldByNobody(leads: seq<Lead>, company: nat)
    ensures HeldBy(leads, company, {}) == 0
  {
    if leads != [] {
      HeldByNobody(leads[..|leads| - 1], company);
    }
  }

  lemma {:induction false} HeldBySplit(leads: seq<Lead>, company: nat, ids: set<nat>, user: nat)
    requires user in ids
    ensures HeldBy(leads, company, ids) == ActiveCount(leads, company, user) + HeldBy(leads, company, ids - {user})
  {
    if leads != [] {
      HeldBySplit(leads[..|leads| - 1], company, ids, user);
    }
  }

  lemma {:induction false} CountsSum(db: Db, company: nat, loads: map<nat, (nat, Option<int>)>)
    requires forall u :: u in loads ==> loads[u].0 == ActiveCount(db.leads, company, u)
    ensures SumOfCounts(loads) == HeldBy(db.leads, company, loads.Keys)
    decreases |loads|
  {
    if loads == map[] {
      HeldByNobody(db.leads, company);
    } else {
      var u :| u in loads && SumOfCounts(loads) == loads[u].0 + SumOfCounts(loads - {u});
      CountsSum(db, company, loads - {u});
      HeldBySplit(db.leads, company, loads.Keys, u);
      assert (loads - {u}).Keys == loads.Keys - {u};
    }
  }

  /** The counts of a batch add up to the active leads its users hold, however
      often a user is listed. */
  lemma BatchCountsSum(db: Db, company: nat, users: seq<nat>)
    ensures SumOfCounts(BatchLoads(db, company, users)) == HeldBy(db.leads, company, Ids(users))
  {
    BatchRefinesSingle(db, company, users);
    var loads := BatchLoads(db, company, users);
    CountsSum(db, company, loads);
    assert loads.Keys == Ids(users);
  }

  /** The least-ordered active team above `order`, the first among equals. */
  function NextTeam(teams: seq<Team>, company: nat, order: int): (t: Option<nat>)
    ensures t.Some? ==> t.value < |teams| && Above(teams[t.value], company, order)
    ensures t.Some? ==> forall i :: 0 <= i < |teams| && Above(teams[i], company, order) ==>
      teams[t.value].order <= teams[i].order
    ensures t == None ==> forall i :: 0 <= i < |teams| ==> !Above(teams[i], company, order)
  {
    if teams == [] then None
    else
      var n := |teams| - 1;
      var best := NextTeam(teams[..n], company, order);
      if Above(teams[n], company, order) && (best == None || teams[n].order < teams[best.value].order)
      then Some(n) else best
  }

  predicate Above(team: Team, company: nat, order: int) {
    team.company == company && team.active && team.order > order
  }
}
