/** How a member is picked from the pool (apps/distribution/strategies). */
module Strategies {
  import opened Text
  import opened Crm
  import opened Selectors

  datatype Decision = Decision(team: Option<nat>, salesman: Option<nat>)

  const NOBODY := Decision(None, None)

  function Chosen(m: Member): Decision {
    Decision(Some(m.team), Some(m.user))
  }

  type Load = (nat, Option<int>)

  /** Fewer active leads first, then the longest wait; never served comes first. */
  predicate Before(a: Load, b: Load) {
    a.0 < b.0 || (a.0 == b.0 && b.1.Some? && (a.1 == None || a.1.value < b.1.value))
  }

  /** The first least-loaded position. */
  function LeastLoaded(loads: seq<Load>): (best: nat)
    requires loads != []
    ensures best < |loads|
    ensures forall i :: 0 <= i < |loads| ==> !Before(loads[i], loads[best])
    ensures forall i :: 0 <= i < best ==> Before(loads[best], loads[i])
  {
    var n := |loads| - 1;
    if n == 0 then 0
    else
      var best := LeastLoaded(loads[..n]);
      if Before(loads[n], loads[best]) then n else best
  }

  function LoadsOf(db: Db, company: nat, pool: seq<Member>): (loads: seq<Load>)
    ensures |loads| == |pool|
  {
    seq(|pool|, i requires 0 <= i < |pool| => CandidateLoad(db, company, pool[i].user))
  }

  /** The position in the pool that the cursor stands at. */
  function Position(db: Db, company: nat, scope: Scope, language: Option<nat>, pool: seq<Member>): (p: nat)
    requires pool != []
    ensures p < |pool|
  {
    var key := PointerKey(company, scope, language);
    (if key in db.pointers then db.pointers[key] else 0) % |pool|
  }

  /** The strategy's pick, and the cursors it leaves behind. */
  function Select(db: Db, strategy: Strategy, company: nat, scope: Scope, language: Option<nat>,
                  pool: seq<Member>): (Db, Decision)
  {
    if pool == [] then (db, NOBODY)
    else
      match strategy
      case ROUND_ROBIN => (db, Chosen(pool[LeastLoaded(LoadsOf(db, company, pool))]))
      case BY_TURN =>
        var index := Position(db, company, scope, language, pool);
        var key := PointerKey(company, scope, language);
        (db.(pointers := db.pointers[key := (index + 1) % |pool|]), Chosen(pool[index]))
      case Other(choice) =>
        (db, if choice.Some? then Chosen(pool[choice.value % |pool|]) else NOBODY)
  }

  /** Whoever is picked is a member of the pool, with that member's team, and
      only the cursors move. */
  lemma SelectsFromPool(db: Db, strategy: Strategy, company: nat, scope: Scope, language: Option<nat>,
                        pool: seq<Member>)
    ensures var (after, decision) := Select(db, strategy, company, scope, language, pool);
      && after == db.(pointers := after.pointers)
      && (decision == NOBODY || exists m :: m in pool && decision == Chosen(m))
      && (pool != [] && strategy != Other(None) ==> decision != NOBODY)
  {
    var decision := Select(db, strategy, company, scope, language, pool).1;
    if pool != [] {
      match strategy {
        case ROUND_ROBIN =>
          assert pool[LeastLoaded(LoadsOf(db, company, pool))] in pool;
        case BY_TURN =>
          assert pool[Position(db, company, scope, language, pool)] in pool;
        case Other(choice) =>
          assert choice.Some? ==> pool[choice.value % |pool|] in pool;
      }
    }
  }

  /** Round robin never passes over somebody with a smaller load. */
  lemma RoundRobinPicksLeastLoaded(db: Db, company: nat, scope: Scope, language: Option<nat>, pool: seq<Member>)
    requires pool != []
    ensures var (_, decision) := Select(db, ROUND_ROBIN, company, scope, language, pool);
      decision.salesman.Some? && forall m :: m in pool ==>
        !Before(CandidateLoad(db, company, m.user), CandidateLoad(db, company, decision.salesman.value))
  {
    var loads := LoadsOf(db, company, pool);
    var best := LeastLoaded(loads);
    forall m | m in pool
      ensures !Before(CandidateLoad(db, company, m.user), CandidateLoad(db, company, pool[best].user))
    {
      var i :| 0 <= i < |pool| && pool[i] == m;
      assert !Before(loads[i], loads[best]);
    }
  }

  /** The state after `turns` by-turn picks from an unchanging pool. */
  function AfterTurns(db: Db, turns: nat, company: nat, scope: Scope, language: Option<nat>, pool: seq<Member>): Db {
    if turns == 0 then db
    else Select(AfterTurns(db, turns - 1, company, scope, language, pool), BY_TURN, company, scope, language, pool).0
  }

  function Rotated(p: nat, steps: nat, n: nat): (q: nat)
    requires p < n && steps < n
    ensures q < n
  {
    if p + steps < n then p + steps else p + steps - n
  }

  lemma SmallModulus(x: nat, n: nat)
    requires x < n
    ensures x % n == x && (x + 1) % n == if x + 1 == n then 0 else x + 1
  {
    assert x + 1 == n ==> n % n == 0;
  }

  lemma {:induction false} CursorAdvances(db: Db, turns: nat, company: nat, scope: Scope, language: Option<nat>,
                                          pool: seq<Member>)
    requires turns < |pool|
    ensures Position(AfterTurns(db, turns, company, scope, language, pool), company, scope, language, pool)
         == Rotated(Position(db, company, scope, language, pool), turns, |pool|)
  {
    if turns > 0 {
      CursorAdvances(db, turns - 1, company, scope, language, pool);
      var before := AfterTurns(db, turns - 1, company, scope, language, pool);
      var p := Position(before, company, scope, language, pool);
      SmallModulus(p, |pool|);
      SmallModulus(if p + 1 == |pool| then 0 else p + 1, |pool|);
    }
  }

  /** Rotation is fair: from any cursor, as many turns as there are members
      reach every member of an unchanging pool. */
  lemma EveryMemberGetsATurn(db: Db, company: nat, scope: Scope, language: Option<nat>, pool: seq<Member>, index: nat)
    requires index < |pool|
    ensures exists turn: nat ::
      && turn < |pool|
      && Select(AfterTurns(db, turn, company, scope, language, pool), BY_TURN, company, scope, language, pool).1
        == Chosen(pool[index])
  {
    var p := Position(db, company, scope, language, pool);
    var turn := if index >= p then index - p else index + |pool| - p;
    CursorAdvances(db, turn, company, scope, language, pool);
    assert Select(AfterTurns(db, turn, company, scope, language, pool), BY_TURN, company, scope, language, pool).1
        == Chosen(pool[index]);
  }
}
