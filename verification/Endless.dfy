/** Retry and escalation when distribution is not confined to a team: exactly
    when a lead is reassigned for ever, retries included. */
module Endless {
  import opened Text
  import opened Crm
  import opened Selectors
  import opened Strategies
  import opened Distribution
  import opened Escalation
  import opened Unscoped

  /** The lead has a team and is no broker's, and all salesmen are in scope. */
  predicate Roams(db: Db, id: nat, policy: Policy) {
    HasTeam(db, id) && db.leads[id].origin == DIRECT && policy.scope == ALL_SALESMEN
  }

  predicate Retrying(db: Db, id: nat, policy: Policy)
    requires id < |db.leads|
  {
    AttemptCount(db, id, db.leads[id].owner.team) < policy.attempts
  }

  ghost predicate OpenAtHome(db: Db, lead: Lead) {
    exists m :: Open(db, lead, m) && lead.owner.team == Some(m.team)
  }

  /** No retry is due, or there is somebody to retry with. */
  ghost predicate HomeWorks(db: Db, id: nat, policy: Policy)
    requires id < |db.leads|
  {
    Retrying(db, id, policy) ==> OpenAtHome(db, db.leads[id])
  }

  /** Only the lead's owner, and tables its next expiry does not read, differ. */
  predicate Carried(db: Db, after: Db, id: nat) {
    && id < |db.leads| && |after.leads| == |db.leads|
    && after.leads[id] == db.leads[id].(owner := after.leads[id].owner)
    && (after.users, after.teams, after.members) == (db.users, db.teams, db.members)
  }

  lemma CarriedKeeps(db: Db, after: Db, id: nat)
    requires Carried(db, after, id)
    ensures forall o :: Open(after, after.leads[id], o) <==> Open(db, db.leads[id], o)
    ensures forall team :: Climbs(after, after.leads[id], team) <==> Climbs(db, db.leads[id], team)
  {
    assert forall o :: Eligible(after, o, db.leads[id].company, db.leads[id].language, ALL_SALESMEN, None)
                  <==> Eligible(db, o, db.leads[id].company, db.leads[id].language, ALL_SALESMEN, None);
  }

  /** One expiry reassigned the lead to `m`: a retry within its team, or an
      escalation to anybody reachable. */
  ghost predicate Went(db: Db, after: Db, id: nat, policy: Policy, m: Member) {
    && Carried(db, after, id) && Open(db, db.leads[id], m)
    && after.leads[id].owner == Owner(Some(m.team), Some(m.user))
    && RowsFor(after.history, id) == RowsFor(db.history, id) + 1
    && (if Retrying(db, id, policy) then
          && Some(m.team) == db.leads[id].owner.team
          && |after.attempts| == |db.attempts| + 1 && after.attempts[..|db.attempts|] == db.attempts
          && (after.attempts[|db.attempts|].lead, after.attempts[|db.attempts|].team) == (id, m.team)
        else
          && Climbs(db, db.leads[id], db.leads[id].owner.team) && Reachable(db, db.leads[id], m)
          && after.attempts == db.attempts)
  }

  lemma HomePool(db: Db, id: nat, policy: Policy)
    requires Roams(db, id, policy)
    ensures RetryPool(db, db.leads[id]) != [] <==> OpenAtHome(db, db.leads[id])
    ensures forall m :: m in RetryPool(db, db.leads[id]) ==>
      Open(db, db.leads[id], m) && db.leads[id].owner.team == Some(m.team)
  {
    var lead := db.leads[id];
    var all := EligiblePool(db, lead.company, lead.language, TEAM_THEN_SALESMAN, lead.owner.team);
    PoolExact(db, lead.company, lead.language, TEAM_THEN_SALESMAN, lead.owner.team);
    PreferExact(all, lead.owner.salesman);
    if OpenAtHome(db, lead) {
      var m :| Open(db, lead, m) && lead.owner.team == Some(m.team);
      assert m in all;
    }
    if RetryPool(db, lead) != [] {
      assert RetryPool(db, lead)[0] in RetryPool(db, lead);
    }
  }

  lemma RetryGoes(db: Db, id: nat, policy: Policy, strategy: Strategy, env: Env) returns (m: Member)
    requires Roams(db, id, policy) && Retrying(db, id, policy) && OpenAtHome(db, db.leads[id])
    ensures Went(db, Expire(db, id, policy, strategy, env), id, policy, m)
  {
    var lead := db.leads[id];
    var number := AttemptCount(db, id, lead.owner.team) + 1;
    var pool := RetryPool(db, lead);
    HomePool(db, id, policy);
    m := pool[(number - 1) % |pool|];
    assert m in pool;
    var noted := db.(attempts := db.attempts + [Attempt(id, m.team, m.user, number)]);
    AssignmentCounted(noted, id, Owner(Some(m.team), Some(m.user)), RETRY, None, env);
  }

  lemma RetryStops(db: Db, id: nat, policy: Policy, strategy: Strategy, env: Env)
    requires Roams(db, id, policy) && Retrying(db, id, policy) && !OpenAtHome(db, db.leads[id])
    ensures RowsFor(Expire(db, id, policy, strategy, env).history, id) == RowsFor(db.history, id)
  {
    HomePool(db, id, policy);
  }

  /** Where a reassigning expiry went. */
  lemma GoingWent(db: Db, id: nat, policy: Policy, strategy: Strategy, env: Env) returns (m: Member)
    requires Roams(db, id, policy)
    requires RowsFor(Expire(db, id, policy, strategy, env).history, id) == RowsFor(db.history, id) + 1
    ensures Went(db, Expire(db, id, policy, strategy, env), id, policy, m)
    ensures HomeWorks(db, id, policy)
  {
    if Retrying(db, id, policy) {
      if !OpenAtHome(db, db.leads[id]) {
        RetryStops(db, id, policy, strategy, env);
      }
      m := RetryGoes(db, id, policy, strategy, env);
    } else {
      EscalationMoves(db, id, policy, strategy, env);
      m :| Reachable(db, db.leads[id], m) && MovedTo(db, Expire(db, id, policy, strategy, env), id, m);
    }
  }

  lemma DecidingGoes(db: Db, id: nat, policy: Policy, strategy: Strategy, env: Env) returns (m: Member)
    requires Escalates(db, id, policy) && strategy != Other(None)
    requires Climbs(db, db.leads[id], db.leads[id].owner.team) && exists o :: Open(db, db.leads[id], o)
    ensures Went(db, Expire(db, id, policy, strategy, env), id, policy, m)
  {
    var lead, p := db.leads[id], policy.(auto := strategy);
    var next := NextOf(db, lead);
    var all := EligiblePool(db, lead.company, lead.language, ALL_SALESMEN, next);
    PoolExact(db, lead.company, lead.language, ALL_SALESMEN, next);
    var o :| Open(db, lead, o);
    assert o in all;
    PreferExact(all, lead.owner.salesman);
    ExpireIsRun(db, id, policy, strategy, env);
    DecidingStrategiesAssign(db, lead, p, None, next, env);
    var after := Distribute(db, lead, p, None, next, env);
    DistributeOutcome(db, lead, p, None, next, env);
    AssigningCounted(db, after, lead, p, next);
    m := GoingWent(db, id, policy, strategy, env);
  }

  // ---- Sequences of expiries ----

  datatype Turn = Turn(strategy: Strategy, env: Env)

  function TurnOf(db: Db, id: nat, policy: Policy, turn: Turn): Db
    requires id < |db.leads| && db.leads[id].id == id
  {
    Expire(db, id, policy, turn.strategy, turn.env)
  }

  /** Each of these expiries reassigns the lead. */
  predicate KeepsGoing(db: Db, id: nat, policy: Policy, turns: seq<Turn>)
    decreases |turns|
  {
    turns == [] ||
    (HasTeam(db, id) &&
     var after := TurnOf(db, id, policy, turns[0]);
     RowsFor(after.history, id) == RowsFor(db.history, id) + 1 && KeepsGoing(after, id, policy, turns[1..]))
  }

  predicate Deciding(turns: seq<Turn>) {
    forall k :: 0 <= k < |turns| ==> turns[k].strategy != Other(None)
  }

  lemma WentRoams(db: Db, after: Db, id: nat, policy: Policy, m: Member)
    requires Roams(db, id, policy) && Went(db, after, id, policy, m)
    ensures Roams(after, id, policy) && OpenAtHome(after, after.leads[id])
  {
    CarriedKeeps(db, after, id);
    assert Open(after, after.leads[id], m);
  }

  lemma TurnFirst(db: Db, id: nat, policy: Policy, turn: Turn, m: Member, turns: seq<Turn>)
    requires Roams(db, id, policy) && Went(db, TurnOf(db, id, policy, turn), id, policy, m)
    ensures KeepsGoing(db, id, policy, [turn] + turns) <==> KeepsGoing(TurnOf(db, id, policy, turn), id, policy, turns)
  {
    assert ([turn] + turns)[1..] == turns;
  }

  // ---- Whatever is decided ----

  /** The lead's team, and every team it can be moved to, has one above it. */
  ghost predicate Trapped(db: Db, lead: Lead) {
    && Climbs(db, lead, lead.owner.team)
    && (exists m :: Open(db, lead, m))
    && forall m :: Open(db, lead, m) ==> Climbs(db, lead, Some(m.team))
  }

  lemma TrappedStays(db: Db, after: Db, id: nat, policy: Policy, m: Member)
    requires Roams(db, id, policy) && Trapped(db, db.leads[id]) && Went(db, after, id, policy, m)
    ensures Roams(after, id, policy) && HomeWorks(after, id, policy) && Trapped(after, after.leads[id])
  {
    WentRoams(db, after, id, policy, m);
    CarriedKeeps(db, after, id);
    var lead := after.leads[id];
    assert Open(after, lead, m) && Climbs(after, lead, lead.owner.team);
    forall o | Open(after, lead, o)
      ensures Climbs(after, lead, Some(o.team))
    {
      assert Open(db, db.leads[id], o);
    }
  }

  lemma TrappedTurn(db: Db, id: nat, policy: Policy, turn: Turn)
    requires Roams(db, id, policy) && HomeWorks(db, id, policy) && Trapped(db, db.leads[id])
    requires turn.strategy != Other(None)
    ensures var after := TurnOf(db, id, policy, turn);
      && Roams(after, id, policy) && HomeWorks(after, id, policy) && Trapped(after, after.leads[id])
      && RowsFor(after.history, id) == RowsFor(db.history, id) + 1
  {
    var m;
    if Retrying(db, id, policy) {
      m := RetryGoes(db, id, policy, turn.strategy, turn.env);
    } else {
      m := DecidingGoes(db, id, policy, turn.strategy, turn.env);
    }
    TrappedStays(db, TurnOf(db, id, policy, turn), id, policy, m);
  }

  lemma {:induction false} TrappedGoesOn(db: Db, id: nat, policy: Policy, turns: seq<Turn>)
    requires Roams(db, id, policy) && HomeWorks(db, id, policy) && Trapped(db, db.leads[id]) && Deciding(turns)
    ensures KeepsGoing(db, id, policy, turns)
    decreases |turns|
  {
    if turns != [] {
      TrappedTurn(db, id, policy, turns[0]);
      TrappedGoesOn(TurnOf(db, id, policy, turns[0]), id, policy, turns[1..]);
    }
  }

  const IDLE := Turn(ROUND_ROBIN, Env(0, None))

  lemma StuckStops(db: Db, id: nat, policy: Policy)
    requires Roams(db, id, policy)
    requires !HomeWorks(db, id, policy)
      || (!Retrying(db, id, policy)
          && (!Climbs(db, db.leads[id], db.leads[id].owner.team) || !(exists o :: Open(db, db.leads[id], o))))
    ensures !KeepsGoing(db, id, policy, [IDLE])
  {
    if KeepsGoing(db, id, policy, [IDLE]) {
      var m := GoingWent(db, id, policy, IDLE.strategy, IDLE.env);
    }
  }

  // ---- The retries that are left, over all teams ----

  function TeamDue(db: Db, id: nat, policy: Policy, team: nat): nat {
    var used := AttemptCount(db, id, Some(team));
    if used < policy.attempts then policy.attempts - used else 0
  }

  function DueBelow(db: Db, id: nat, policy: Policy, bound: nat): nat {
    if bound == 0 then 0 else DueBelow(db, id, policy, bound - 1) + TeamDue(db, id, policy, bound - 1)
  }

  function RetriesDue(db: Db, id: nat, policy: Policy): nat {
    DueBelow(db, id, policy, |db.teams|)
  }

  lemma {:induction false} OneLessDue(db: Db, after: Db, id: nat, policy: Policy, team: nat, bound: nat)
    requires |after.attempts| == |db.attempts| + 1 && after.attempts[..|db.attempts|] == db.attempts
    requires (after.attempts[|db.attempts|].lead, after.attempts[|db.attempts|].team) == (id, team)
    requires AttemptCount(db, id, Some(team)) < policy.attempts
    ensures DueBelow(after, id, policy, bound) == DueBelow(db, id, policy, bound) - (if team < bound then 1 else 0)
  {
    if bound > 0 {
      OneLessDue(db, after, id, policy, team, bound - 1);
    }
  }

  lemma {:induction false} SameDue(db: Db, after: Db, id: nat, policy: Policy, bound: nat)
    requires after.attempts == db.attempts
    ensures DueBelow(after, id, policy, bound) == DueBelow(db, id, policy, bound)
  {
    if bound > 0 {
      SameDue(db, after, id, policy, bound - 1);
    }
  }

  /** A retry uses one up; an escalation none. */
  lemma WentDue(db: Db, after: Db, id: nat, policy: Policy, m: Member)
    requires Roams(db, id, policy) && Went(db, after, id, policy, m)
    ensures RetriesDue(after, id, policy) == RetriesDue(db, id, policy) - (if Retrying(db, id, policy) then 1 else 0)
  {
    if Retrying(db, id, policy) {
      OneLessDue(db, after, id, policy, m.team, |db.teams|);
    } else {
      SameDue(db, after, id, policy, |db.teams|);
    }
  }

  /** A way to stop from here. */
  ghost predicate CanStop(db: Db, id: nat, policy: Policy) {
    exists turns :: Deciding(turns) && !KeepsGoing(db, id, policy, turns)
  }

  lemma StopsAfter(db: Db, id: nat, policy: Policy, turn: Turn, m: Member)
    requires Roams(db, id, policy) && turn.strategy != Other(None)
    requires Went(db, TurnOf(db, id, policy, turn), id, policy, m)
    requires CanStop(TurnOf(db, id, policy, turn), id, policy)
    ensures CanStop(db, id, policy)
  {
    var after := TurnOf(db, id, policy, turn);
    var turns :| Deciding(turns) && !KeepsGoing(after, id, policy, turns);
    TurnFirst(db, id, policy, turn, m, turns);
    assert Deciding([turn] + turns);
  }

  /** Under a team that does not climb, the lead stops once its retries end. */
  lemma {:induction false} TopStops(db: Db, id: nat, policy: Policy)
    requires Roams(db, id, policy)
    requires !Climbs(db, db.leads[id], db.leads[id].owner.team) || !(exists o :: Open(db, db.leads[id], o))
    ensures CanStop(db, id, policy)
    decreases RetriesDue(db, id, policy)
  {
    if Retrying(db, id, policy) && OpenAtHome(db, db.leads[id]) {
      var m, after := RetryOnce(db, id, policy);
      TopStops(after, id, policy);
      StopsAfter(db, id, policy, IDLE, m);
    } else {
      StuckStops(db, id, policy);
      assert Deciding([IDLE]);
    }
  }

  lemma RetryOnce(db: Db, id: nat, policy: Policy) returns (m: Member, after: Db)
    requires Roams(db, id, policy) && Retrying(db, id, policy) && OpenAtHome(db, db.leads[id])
    ensures after == TurnOf(db, id, policy, IDLE) && Went(db, after, id, policy, m) && Roams(after, id, policy)
    ensures RetriesDue(after, id, policy) < RetriesDue(db, id, policy)
    ensures forall o :: Open(after, after.leads[id], o) <==> Open(db, db.leads[id], o)
    ensures forall team :: Climbs(after, after.leads[id], team) <==> Climbs(db, db.leads[id], team)
  {
    m := RetryGoes(db, id, policy, IDLE.strategy, IDLE.env);
    after := TurnOf(db, id, policy, IDLE);
    WentDue(db, after, id, policy, m);
    WentRoams(db, after, id, policy, m);
    CarriedKeeps(db, after, id);
  }

  /** A turn that moves the lead to `m`. */
  lemma TurnTo(db: Db, id: nat, policy: Policy, m: Member) returns (turn: Turn)
    requires Escalates(db, id, policy) && Reachable(db, db.leads[id], m)
    requires Climbs(db, db.leads[id], db.leads[id].owner.team)
    ensures turn.strategy != Other(None) && Went(db, TurnOf(db, id, policy, turn), id, policy, m)
  {
    var i := ChoiceMoves(db, id, policy, m, IDLE.env);
    turn := Turn(Other(Some(i)), IDLE.env);
  }

  /** Somebody under a team that does not climb can be reached at once. */
  lemma LowStops(db: Db, id: nat, policy: Policy, low: Member)
    requires Escalates(db, id, policy) && Climbs(db, db.leads[id], db.leads[id].owner.team)
    requires Reachable(db, db.leads[id], low) && !Climbs(db, db.leads[id], Some(low.team))
    ensures CanStop(db, id, policy)
  {
    var turn := TurnTo(db, id, policy, low);
    var after := TurnOf(db, id, policy, turn);
    WentRoams(db, after, id, policy, low);
    CarriedKeeps(db, after, id);
    TopStops(after, id, policy);
    StopsAfter(db, id, policy, turn, low);
  }

  /** If the lead is with the low one, another salesman is reached first, and
      then, perhaps after retries, the low one. */
  lemma {:induction false} LowOpenStops(db: Db, id: nat, policy: Policy, low: Member)
    requires Roams(db, id, policy) && Open(db, db.leads[id], low) && !Climbs(db, db.leads[id], Some(low.team))
    ensures CanStop(db, id, policy)
    decreases RetriesDue(db, id, policy), if Reachable(db, db.leads[id], low) then 0 else 1
  {
    var lead := db.leads[id];
    if !Climbs(db, lead, lead.owner.team) {
      TopStops(db, id, policy);
    } else if Retrying(db, id, policy) && !OpenAtHome(db, lead) {
      StuckStops(db, id, policy);
      assert Deciding([IDLE]);
    } else if Retrying(db, id, policy) {
      var m, after := RetryOnce(db, id, policy);
      LowOpenStops(after, id, policy, low);
      StopsAfter(db, id, policy, IDLE, m);
    } else if Reachable(db, lead, low) {
      LowStops(db, id, policy, low);
    } else {
      var other, turn := Detour(db, id, policy, low);
      LowOpenStops(TurnOf(db, id, policy, turn), id, policy, low);
      StopsAfter(db, id, policy, turn, other);
    }
  }

  lemma Detour(db: Db, id: nat, policy: Policy, low: Member) returns (other: Member, turn: Turn)
    requires Escalates(db, id, policy) && Climbs(db, db.leads[id], db.leads[id].owner.team)
    requires Open(db, db.leads[id], low) && !Climbs(db, db.leads[id], Some(low.team))
    requires !Reachable(db, db.leads[id], low)
    ensures turn.strategy != Other(None)
    ensures var after := TurnOf(db, id, policy, turn);
      && Went(db, after, id, policy, other) && Roams(after, id, policy)
      && RetriesDue(after, id, policy) == RetriesDue(db, id, policy)
      && Reachable(after, after.leads[id], low) && !Climbs(after, after.leads[id], Some(low.team))
  {
    other :| Open(db, db.leads[id], other) && other.user != low.user;
    turn := TurnTo(db, id, policy, other);
    var after := TurnOf(db, id, policy, turn);
    WentDue(db, after, id, policy, other);
    WentRoams(db, after, id, policy, other);
    CarriedKeeps(db, after, id);
    assert Open(after, after.leads[id], low);
  }

  lemma UntrappedStops(db: Db, id: nat, policy: Policy)
    requires Roams(db, id, policy) && !(HomeWorks(db, id, policy) && Trapped(db, db.leads[id]))
    ensures CanStop(db, id, policy)
  {
    var lead := db.leads[id];
    if !HomeWorks(db, id, policy) {
      StuckStops(db, id, policy);
      assert Deciding([IDLE]);
    } else if !Climbs(db, lead, lead.owner.team) || !(exists o :: Open(db, lead, o)) {
      TopStops(db, id, policy);
    } else {
      var low :| Open(db, lead, low) && !Climbs(db, lead, Some(low.team));
      LowOpenStops(db, id, policy, low);
    }
  }

  /** A lead is reassigned at every expiry, for ever and whatever strategies
      decide, exactly if a retry that is due finds somebody in its team and it is
      trapped. */
  lemma AlwaysGoesOnIff(db: Db, id: nat, policy: Policy)
    requires Roams(db, id, policy)
    ensures (forall turns :: Deciding(turns) ==> KeepsGoing(db, id, policy, turns)) <==>
      HomeWorks(db, id, policy) && Trapped(db, db.leads[id])
  {
    if HomeWorks(db, id, policy) && Trapped(db, db.leads[id]) {
      forall turns | Deciding(turns)
        ensures KeepsGoing(db, id, policy, turns)
      {
        TrappedGoesOn(db, id, policy, turns);
      }
    } else {
      UntrappedStops(db, id, policy);
    }
  }

  // ---- For some choices ----

  ghost predicate Bounces(db: Db, lead: Lead, m: Member) {
    Open(db, lead, m) && Climbs(db, lead, Some(m.team))
  }

  /** Two salesmen under teams that climb, or one who is everybody. */
  ghost predicate PingPong(db: Db, lead: Lead) {
    exists a, b ::
      && Bounces(db, lead, a) && Bounces(db, lead, b)
      && (a.user != b.user || forall o :: Open(db, lead, o) ==> o.user == a.user)
  }

  ghost predicate CanBounce(db: Db, id: nat, policy: Policy) {
    && Roams(db, id, policy) && HomeWorks(db, id, policy)
    && Climbs(db, db.leads[id], db.leads[id].owner.team) && PingPong(db, db.leads[id])
  }

  lemma PingPongStays(db: Db, after: Db, id: nat)
    requires Carried(db, after, id)
    ensures PingPong(after, after.leads[id]) <==> PingPong(db, db.leads[id])
  {
    CarriedKeeps(db, after, id);
    forall m
      ensures Bounces(after, after.leads[id], m) <==> Bounces(db, db.leads[id], m)
    {
    }
  }

  lemma StillBounces(db: Db, after: Db, id: nat, policy: Policy, m: Member)
    requires CanBounce(db, id, policy) && Went(db, after, id, policy, m) && Climbs(db, db.leads[id], Some(m.team))
    ensures CanBounce(after, id, policy)
  {
    WentRoams(db, after, id, policy, m);
    PingPongStays(db, after, id);
    CarriedKeeps(db, after, id);
  }

  /** One of the two is not the current salesman, or nobody else is there. */
  lemma BounceTarget(db: Db, lead: Lead) returns (m: Member)
    requires PingPong(db, lead)
    ensures Reachable(db, lead, m) && Bounces(db, lead, m)
  {
    var a, b :|
      && Bounces(db, lead, a) && Bounces(db, lead, b)
      && (a.user != b.user || forall o :: Open(db, lead, o) ==> o.user == a.user);
    if lead.owner.salesman == Some(a.user) {
      m := b;
      assert a.user == b.user ==> forall o :: Open(db, lead, o) ==> o.user == b.user;
    } else {
      m := a;
    }
  }

  /** A turn after which it can still bounce. */
  lemma BounceTurn(db: Db, id: nat, policy: Policy) returns (turn: Turn, m: Member)
    requires CanBounce(db, id, policy)
    ensures Went(db, TurnOf(db, id, policy, turn), id, policy, m) && CanBounce(TurnOf(db, id, policy, turn), id, policy)
  {
    if Retrying(db, id, policy) {
      turn := IDLE;
      m := RetryGoes(db, id, policy, IDLE.strategy, IDLE.env);
    } else {
      m := BounceTarget(db, db.leads[id]);
      turn := TurnTo(db, id, policy, m);
    }
    StillBounces(db, TurnOf(db, id, policy, turn), id, policy, m);
  }

  lemma {:induction false} BouncingGoesOn(db: Db, id: nat, policy: Policy, k: nat) returns (turns: seq<Turn>)
    requires CanBounce(db, id, policy)
    ensures |turns| == k && KeepsGoing(db, id, policy, turns)
    decreases k
  {
    turns := [];
    if k > 0 {
      var turn, m := BounceTurn(db, id, policy);
      var rest := BouncingGoesOn(TurnOf(db, id, policy, turn), id, policy, k - 1);
      TurnFirst(db, id, policy, turn, m, rest);
      turns := [turn] + rest;
    }
  }

  /** One turn of a sequence that keeps going. */
  lemma FirstTurn(db: Db, id: nat, policy: Policy, turns: seq<Turn>) returns (m: Member)
    requires Roams(db, id, policy) && turns != [] && KeepsGoing(db, id, policy, turns)
    ensures var after := TurnOf(db, id, policy, turns[0]);
      && Went(db, after, id, policy, m) && HomeWorks(db, id, policy)
      && Roams(after, id, policy) && KeepsGoing(after, id, policy, turns[1..])
      && RetriesDue(after, id, policy) == RetriesDue(db, id, policy) - (if Retrying(db, id, policy) then 1 else 0)
  {
    m := GoingWent(db, id, policy, turns[0].strategy, turns[0].env);
    WentRoams(db, TurnOf(db, id, policy, turns[0]), id, policy, m);
    WentDue(db, TurnOf(db, id, policy, turns[0]), id, policy, m);
  }

  /** Going on beyond the retries takes a team above. */
  lemma {:induction false} OneMoreClimbs(db: Db, id: nat, policy: Policy, turns: seq<Turn>)
    requires Roams(db, id, policy) && KeepsGoing(db, id, policy, turns)
    requires |turns| > RetriesDue(db, id, policy)
    ensures Climbs(db, db.leads[id], db.leads[id].owner.team)
    decreases |turns|
  {
    var m := FirstTurn(db, id, policy, turns);
    if Retrying(db, id, policy) {
      var after := TurnOf(db, id, policy, turns[0]);
      OneMoreClimbs(after, id, policy, turns[1..]);
      CarriedKeeps(db, after, id);
    }
  }

  /** With the salesman `p`, under a team that climbs: going on by two more
      escalations takes somebody to bounce to and back. */
  lemma {:induction false} TwoMoreBounce(db: Db, id: nat, policy: Policy, p: Member, turns: seq<Turn>)
    requires Roams(db, id, policy) && KeepsGoing(db, id, policy, turns)
    requires |turns| > RetriesDue(db, id, policy) + 1
    requires Open(db, db.leads[id], p) && db.leads[id].owner == Owner(Some(p.team), Some(p.user))
    ensures PingPong(db, db.leads[id])
    decreases |turns|
  {
    var m := FirstTurn(db, id, policy, turns);
    var after := TurnOf(db, id, policy, turns[0]);
    CarriedKeeps(db, after, id);
    if Retrying(db, id, policy) {
      TwoMoreBounce(after, id, policy, m, turns[1..]);
      PingPongStays(db, after, id);
    } else {
      OneMoreClimbs(after, id, policy, turns[1..]);
      assert Bounces(db, db.leads[id], p) && Bounces(db, db.leads[id], m);
    }
  }

  lemma {:induction false} ThreeMoreBounce(db: Db, id: nat, policy: Policy, turns: seq<Turn>)
    requires Roams(db, id, policy) && KeepsGoing(db, id, policy, turns)
    requires |turns| > RetriesDue(db, id, policy) + 2
    ensures PingPong(db, db.leads[id])
  {
    var m := FirstTurn(db, id, policy, turns);
    var after := TurnOf(db, id, policy, turns[0]);
    TwoMoreBounce(after, id, policy, m, turns[1..]);
    PingPongStays(db, after, id);
  }

  /** Beyond its retries and three more, a lead can be reassigned any number of
      times in a row exactly if a retry that is due finds somebody in its team,
      it can climb, and there is a ping-pong to enter. */
  lemma CanGoOnIff(db: Db, id: nat, policy: Policy, k: nat)
    requires Roams(db, id, policy) && k >= RetriesDue(db, id, policy) + 3
    ensures (exists turns :: |turns| == k && KeepsGoing(db, id, policy, turns)) <==>
      && HomeWorks(db, id, policy)
      && Climbs(db, db.leads[id], db.leads[id].owner.team)
      && PingPong(db, db.leads[id])
  {
    if CanBounce(db, id, policy) {
      var turns := BouncingGoesOn(db, id, policy, k);
    }
    if turns :| |turns| == k && KeepsGoing(db, id, policy, turns) {
      var m := FirstTurn(db, id, policy, turns);
      OneMoreClimbs(db, id, policy, turns);
      ThreeMoreBounce(db, id, policy, turns);
    }
  }

  /** Two salesmen under the two lower of three teams. */
  function TrapDb(): Db {
    Db([User(true, true, {}), User(true, true, {})],
       [Team(0, 0, true, None), Team(0, 1, true, None), Team(0, 2, true, None)],
       [Member(0, 0, true), Member(1, 1, true)],
       [Lead(0, 0, None, DIRECT, true, Owner(Some(0), Some(0)))],
       [], [], [], [], [], [], [], map[])
  }

  /** Such tables exist. */
  lemma TrapExists(policy: Policy)
    requires policy.scope == ALL_SALESMEN
    ensures Roams(TrapDb(), 0, policy) && HomeWorks(TrapDb(), 0, policy) && Trapped(TrapDb(), TrapDb().leads[0])
  {
    var db := TrapDb();
    var lead := db.leads[0];
    assert Above(db.teams[2], 0, 0) && Above(db.teams[2], 0, 1);
    assert Climbs(db, lead, Some(0)) && Climbs(db, lead, Some(1));
    assert Open(db, lead, db.members[0]);
    forall m | Open(db, lead, m)
      ensures Climbs(db, lead, Some(m.team))
    {
      assert m == db.members[0] || m == db.members[1];
    }
  }
}
