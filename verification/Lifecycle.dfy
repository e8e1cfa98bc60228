/** Every run of the lead life cycle: assignments by hand, distribution, expiry,
    and the edits around them. */
module Lifecycle {
  import opened Text
  import opened Crm
  import opened Selectors
  import opened Strategies
  import opened Distribution
  import opened SlaExpiry

  /** Steps of other transactions are interleaved with these, so each carries
      whatever copy of the lead it was decided on. `Restage` opens an SLA, as
      creation, a stage change and reactivation do; `Cancel` closes a lead's
      SLA without a breach. Three steps write the owner without a history row:
      `Clear`, the bulk reactivation; `Merge`, which refreshes a duplicate by
      saving the whole row as it was read without a lock, with no owner if that
      copy was active; and `Form`, the admin form, whose owner fields can be
      edited. */
  datatype Op =
    | Create(lead: Lead)
    | ByHand(id: nat, salesman: nat, team: Option<nat>, env: Env)
    | ToTeam(id: nat, toTeam: nat, env: Env)
    | Auto(copy: Lead, policy: Policy, chosen: Option<Strategy>, team: Option<nat>, env: Env)
    | Rotate(copy: Lead, policy: Policy, env: Env)
    | Expire(sla: nat, policy: Policy, env: Env, fails: bool)
    | Roster(users: seq<User>, teams: seq<Team>, members: seq<Member>)
    | Edit(id: nat, language: Option<nat>, active: bool)
    | Restage(id: nat, env: Env)
    | Cancel(id: nat)
    | Clear(id: nat)
    | Merge(copy: Lead, language: Option<nat>)
    | Form(id: nat, owner: Owner)

  predicate Enabled(db: Db, op: Op) {
    match op
    case Create(lead) => lead.id == |db.leads|
    case ByHand(id, _, _, _) => id < |db.leads|
    case ToTeam(id, _, _) => id < |db.leads|
    case Auto(copy, _, _, _, _) => copy.id < |db.leads|
    case Rotate(copy, _, _) => copy.id < |db.leads|
    case Expire(_, _, _, _) => WellFormed(db)
    case Roster(_, _, _) => true
    case Edit(id, _, _) => id < |db.leads|
    case Restage(id, _) => id < |db.leads|
    case Cancel(id) => id < |db.leads|
    case Clear(id) => id < |db.leads|
    case Merge(copy, _) => copy.id < |db.leads|
    case Form(id, _) => id < |db.leads|
  }

  function Step(db: Db, op: Op): Db
    requires Enabled(db, op)
  {
    match op
    case Create(lead) => db.(leads := db.leads + [lead])
    case ByHand(id, salesman, team, env) => AssignToSalesman(db, id, salesman, team, env)
    case ToTeam(id, team, env) => AssignToTeam(db, id, Some(team), env)
    case Auto(copy, policy, chosen, team, env) => Distribute(db, copy, policy, chosen, team, env)
    case Rotate(copy, policy, env) => HandleExpiry(db, copy, policy, env)
    case Expire(sla, policy, env, fails) => ExpireSlaInstance(db, sla, policy, env, fails).0
    case Roster(users, teams, members) => db.(users := users, teams := teams, members := members)
    case Edit(id, language, active) =>
      db.(leads := db.leads[id := db.leads[id].(language := language, active := active)])
    case Restage(id, env) => db.(slas := ResetSlas(db.slas, id, env))
    case Cancel(id) => db.(slas := CancelSlas(db.slas, id))
    case Clear(id) => db.(leads := db.leads[id := db.leads[id].(active := true, owner := UNOWNED)])
    case Merge(copy, language) =>
      var row := db.leads[copy.id].(language := if language.Some? then language else copy.language,
                                    active := true, owner := MergedOwner(copy));
      db.(leads := db.leads[copy.id := row])
    case Form(id, owner) => db.(leads := db.leads[id := db.leads[id].(owner := owner)])
  }

  /** An active duplicate goes to the distributors; an inactive one keeps the
      owner it was read with. */
  function MergedOwner(copy: Lead): Owner {
    if copy.active then UNOWNED else copy.owner
  }

  const UNOWNED := Owner(None, None)

  /** Folding a lead's history rows from its first owner; None if the rows do
      not chain. */
  function Replay(history: seq<Assignment>, id: nat, first: Owner): Option<Owner> {
    if history == [] then Some(first)
    else
      var n := |history| - 1;
      var before := Replay(history[..n], id, first);
      if history[n].lead != id then before
      else if before == Some(history[n].from) then Some(history[n].to)
      else None
  }

  /** `first` gives the owner each lead was created with. */
  predicate Traced(db: Db, first: seq<Owner>) {
    |first| == |db.leads| && forall i :: 0 <= i < |db.history| ==> db.history[i].lead < |db.leads|
  }

  /** The lead's history replays to its present owner. */
  predicate Kept(db: Db, first: seq<Owner>, id: nat)
    requires id < |db.leads| == |first|
  {
    Replay(db.history, id, first[id]) == Some(db.leads[id].owner)
  }

  lemma {:induction false} NoRowsYet(history: seq<Assignment>, id: nat, first: Owner)
    requires forall i :: 0 <= i < |history| ==> history[i].lead < id
    ensures Replay(history, id, first) == Some(first)
  {
    if history != [] {
      NoRowsYet(history[..|history| - 1], id, first);
    }
  }

  /** The lead changes owner only together with the history row that says so. */
  ghost predicate Recorded(db: Db, after: Db, id: nat) {
    && |after.leads| == |db.leads| && id < |db.leads|
    && (forall i :: 0 <= i < |db.leads| && i != id ==> after.leads[i] == db.leads[i])
    && after.leads[id] == db.leads[id].(owner := after.leads[id].owner)
    && (|| (after.history == db.history && after.leads[id].owner == db.leads[id].owner)
        || (&& |after.history| == |db.history| + 1
            && after.history[..|db.history|] == db.history
            && after.history[|db.history|].lead == id
            && after.history[|db.history|].from == db.leads[id].owner
            && after.history[|db.history|].to == after.leads[id].owner))
  }

  lemma RecordedTraces(db: Db, after: Db, id: nat, first: seq<Owner>, i: nat)
    requires Recorded(db, after, id) && Traced(db, first) && i < |db.leads|
    ensures Traced(after, first)
    ensures Kept(db, first, i) ==> Kept(after, first, i)
    ensures Replay(db.history, i, first[i]) == None ==> Replay(after.history, i, first[i]) == None
    ensures !Kept(db, first, i) && i == id && after.history != db.history ==> Replay(after.history, i, first[i]) == None
  {}

  lemma AssignRecorded(db: Db, id: nat, to: Owner, kind: Kind, strategy: Option<Strategy>, env: Env)
    requires id < |db.leads|
    ensures Recorded(db, Assign(db, id, to, kind, strategy, env), id)
  {
    assert Assign(db, id, to, kind, strategy, env).history[..|db.history|] == db.history;
  }

  lemma DistributeRecorded(db: Db, lead: Lead, policy: Policy, chosen: Option<Strategy>, team: Option<nat>, env: Env)
    requires lead.id < |db.leads|
    ensures Recorded(db, Distribute(db, lead, policy, chosen, team, env), lead.id)
  {
    DistributeOutcome(db, lead, policy, chosen, team, env);
    DistributeFrame(db, lead, policy, chosen, team, env);
  }

  lemma RotateRecorded(db: Db, lead: Lead, policy: Policy, env: Env)
    requires lead.id < |db.leads|
    ensures Recorded(db, HandleExpiry(db, lead, policy, env), lead.id)
  {
    var after := HandleExpiry(db, lead, policy, env);
    var next := NextTeam(db.teams, lead.company, OrderOf(db, lead.owner.team));
    if AttemptCount(db, lead.id, lead.owner.team) < policy.attempts {
      assert |after.history| > |db.history| ==> after.history[..|db.history|] == db.history;
    } else if next.Some? {
      DistributeRecorded(db, lead, policy, None, next, env);
    }
  }

  lemma MethodRecorded(db: Db, lead: Lead, policy: Policy, env: Env)
    requires lead.id < |db.leads|
    ensures Recorded(db, ApplyMethod(db, lead, policy, env), lead.id)
  {
    DistributeRecorded(db, lead, policy, None, None, env);
    DistributeRecorded(db, lead, policy, Some(BY_TURN), None, env);
    RotateRecorded(db, lead, policy, env);
  }

  /** The subject of an assigning step. */
  function Subject(db: Db, op: Op): Option<nat>
    requires Enabled(db, op)
  {
    match op
    case ByHand(id, _, _, _) => Some(id)
    case ToTeam(id, _, _) => Some(id)
    case Auto(copy, _, _, _, _) => Some(copy.id)
    case Rotate(copy, _, _) => Some(copy.id)
    case Expire(sla, _, _, _) => if sla < |db.slas| then Some(db.slas[sla].lead) else None
    case _ => None
  }

  lemma StepRecorded(db: Db, op: Op)
    requires Enabled(db, op) && Subject(db, op).Some?
    ensures Recorded(db, Step(db, op), Subject(db, op).value)
  {
    match op {
      case ByHand(id, salesman, team, env) =>
        var owner := Owner(if team.Some? then team else db.leads[id].owner.team, Some(salesman));
        AssignRecorded(db, id, owner, MANUAL, None, env);
      case ToTeam(id, team, env) =>
        AssignRecorded(db, id, Owner(Some(team), None), MANUAL, None, env);
      case Auto(copy, policy, chosen, team, env) =>
        DistributeRecorded(db, copy, policy, chosen, team, env);
      case Rotate(copy, policy, env) =>
        RotateRecorded(db, copy, policy, env);
      case Expire(sla, policy, env, fails) =>
        if db.slas[sla].status == ACTIVE && !fails {
          var lead := db.leads[db.slas[sla].lead];
          var marked := MarkBreached(db, sla, lead, policy);
          MethodRecorded(marked, lead, policy, env);
        }
      case _ =>
    }
  }

  /** The first owners after a step. */
  function FirstOwners(first: seq<Owner>, op: Op): seq<Owner> {
    if op.Create? then first + [op.lead.owner] else first
  }

  /** The owner a step writes for the lead without a history row. */
  function Unrecorded(op: Op, id: nat): Option<Owner> {
    match op
    case Clear(i) => if i == id then Some(UNOWNED) else None
    case Merge(copy, _) => if copy.id == id then Some(MergedOwner(copy)) else None
    case Form(i, owner) => if i == id then Some(owner) else None
    case _ => None
  }

  /** The step writes an owner other than the stored one without a row. */
  predicate Overwrites(db: Db, op: Op, id: nat) {
    id < |db.leads| && Unrecorded(op, id).Some? && Unrecorded(op, id).value != db.leads[id].owner
  }

  /** A step keeps a lead's replay exactly if it does not overwrite the owner.
      A chain once broken stays broken, and reassigning a lead whose replay does
      not hold breaks it. */
  lemma StepTraces(db: Db, op: Op, first: seq<Owner>, id: nat)
    requires Enabled(db, op) && Traced(db, first) && id < |db.leads|
    ensures var after := Step(db, op);
      var first' := FirstOwners(first, op);
      && Traced(after, first') && id < |after.leads| && first'[id] == first[id]
      && (Kept(db, first, id) ==> (Kept(after, first', id) <==> !Overwrites(db, op, id)))
      && (Replay(db.history, id, first[id]) == None ==> Replay(after.history, id, first[id]) == None)
      && (!Kept(db, first, id) && Subject(db, op) == Some(id) && after.history != db.history ==>
            Replay(after.history, id, first[id]) == None)
  {
    if Subject(db, op).Some? {
      StepRecorded(db, op);
      RecordedTraces(db, Step(db, op), Subject(db, op).value, first, id);
    }
  }

  lemma CreatedKept(db: Db, lead: Lead, first: seq<Owner>)
    requires Traced(db, first) && lead.id == |db.leads|
    ensures Traced(Step(db, Create(lead)), FirstOwners(first, Create(lead)))
    ensures Kept(Step(db, Create(lead)), FirstOwners(first, Create(lead)), lead.id)
  {
    NoRowsYet(db.history, |db.leads|, lead.owner);
  }

  // ---- SLA instances ----

  /** Whose instances a step moves on, and when. */
  function Mover(db: Db, op: Op): (nat, Env)
    requires Enabled(db, op)
  {
    match op
    case ByHand(id, _, _, env) => (id, env)
    case ToTeam(id, _, env) => (id, env)
    case Auto(copy, _, _, _, env) => (copy.id, env)
    case Rotate(copy, _, env) => (copy.id, env)
    case Restage(id, env) => (id, env)
    case Cancel(id) => (id, Env(0, None))
    case _ => (0, Env(0, None))
  }

  /** A step that breaches nothing leaves the instances, or resets or cancels
      those of one lead. */
  lemma StepMovesOn(db: Db, op: Op)
    requires Enabled(db, op) && !op.Expire?
    ensures var after := Step(db, op);
      after.breaches == db.breaches && MovedOn(db.slas, after.slas, Mover(db, op).0, Mover(db, op).1)
  {
    match op {
      case Auto(copy, policy, chosen, team, env) =>
        DistributeMovesOn(db, copy, policy, chosen, team, env);
      case Rotate(copy, policy, env) =>
        ExpiryMovesOn(db, copy, policy, env);
      case _ =>
    }
  }

  /** What every step keeps of the instances and their breach events. */
  predicate SlasSafe(db: Db) {
    WellFormed(db) && BreachesMatch(db) && OneActive(db.slas)
  }

  predicate ClosedKept(before: seq<Sla>, after: seq<Sla>) {
    && |before| <= |after|
    && forall i :: 0 <= i < |before| && before[i].status != ACTIVE ==> after[i] == before[i]
  }

  lemma ExpireKeepsSlas(db: Db, sla: nat, policy: Policy, env: Env, fails: bool)
    requires SlasSafe(db)
    ensures var after := ExpireSlaInstance(db, sla, policy, env, fails).0;
      BreachesMatch(after) && OneActive(after.slas) && ClosedKept(db.slas, after.slas)
      && |after.breaches| >= |db.breaches|
      && (forall i :: 0 <= i < |after.slas| ==> after.slas[i].lead < |db.leads|)
      && (forall i :: 0 <= i < |after.breaches| ==> after.breaches[i].sla < |after.slas|)
  {
    if sla < |db.slas| && db.slas[sla].status == ACTIVE && !fails {
      var lead := db.leads[db.slas[sla].lead];
      var marked := MarkBreached(db, sla, lead, policy);
      StaleCopyBreachesTwice(db, sla, db.slas[sla], lead, policy, env);
      MethodMovesOn(marked, lead, policy, env);
      MovedOnIsContained(marked.slas, ApplyMethod(marked, lead, policy, env).slas, lead.id, env);
    }
  }

  lemma StepKeepsSlas(db: Db, op: Op)
    requires Enabled(db, op) && SlasSafe(db)
    ensures SlasSafe(Step(db, op)) && ClosedKept(db.slas, Step(db, op).slas)
  {
    var after := Step(db, op);
    var subject := Subject(db, op);
    if subject.Some? {
      StepRecorded(db, op);
    }
    if op.Expire? {
      ExpireKeepsSlas(db, op.sla, op.policy, op.env, op.fails);
    } else {
      var (id, env) := Mover(db, op);
      StepMovesOn(db, op);
      MovingOnKeepsBreaches(db, after, id, env);
      MovedOnIsContained(db.slas, after.slas, id, env);
    }
  }

  // ---- Runs ----

  predicate IsRun(trace: seq<Db>, ops: seq<Op>, firsts: seq<seq<Owner>>) {
    && |trace| == |firsts| == |ops| + 1
    && (trace[0].leads == [] && trace[0].history == [] && trace[0].slas == [] && trace[0].breaches == [])
    && firsts[0] == []
    && forall k :: 0 <= k < |ops| ==>
         && Enabled(trace[k], ops[k])
         && trace[k + 1] == Step(trace[k], ops[k])
         && firsts[k + 1] == FirstOwners(firsts[k], ops[k])
  }

  lemma {:induction false} RunTraced(trace: seq<Db>, ops: seq<Op>, firsts: seq<seq<Owner>>, k: nat)
    requires IsRun(trace, ops, firsts) && k < |trace|
    ensures Traced(trace[k], firsts[k])
  {
    if k > 0 {
      RunTraced(trace, ops, firsts, k - 1);
      StepLengths(trace[k - 1], ops[k - 1], firsts[k - 1]);
    }
  }

  lemma RecordedLengths(db: Db, after: Db, id: nat, first: seq<Owner>)
    requires Recorded(db, after, id) && Traced(db, first)
    ensures Traced(after, first) && |after.leads| == |db.leads|
  {
    forall i | 0 <= i < |after.history|
      ensures after.history[i].lead < |after.leads|
    {
      assert i < |db.history| ==> after.history[i] == db.history[i];
    }
  }

  lemma StepLengths(db: Db, op: Op, first: seq<Owner>)
    requires Enabled(db, op) && Traced(db, first)
    ensures var after := Step(db, op);
      && Traced(after, FirstOwners(first, op))
      && |after.leads| == |db.leads| + (if op.Create? then 1 else 0)
  {
    if op.Create? {
      CreatedKept(db, op.lead, first);
    } else if Subject(db, op).Some? {
      StepRecorded(db, op);
      RecordedLengths(db, Step(db, op), Subject(db, op).value, first);
    }
  }

  /** In every state of the run in which the lead exists, its history replays
      to its present owner. */
  ghost predicate AlwaysKept(trace: seq<Db>, firsts: seq<seq<Owner>>, id: nat)
    requires |trace| == |firsts|
  {
    forall k :: 0 <= k < |trace| && id < |trace[k].leads| ==>
      |firsts[k]| == |trace[k].leads| && Kept(trace[k], firsts[k], id)
  }

  predicate NeverOverwritten(trace: seq<Db>, ops: seq<Op>, id: nat)
    requires |trace| == |ops| + 1
  {
    forall j :: 0 <= j < |ops| ==> !Overwrites(trace[j], ops[j], id)
  }

  lemma {:induction false} RunKeeps(trace: seq<Db>, ops: seq<Op>, firsts: seq<seq<Owner>>, k: nat, id: nat)
    requires IsRun(trace, ops, firsts) && k < |trace| && id < |trace[k].leads|
    requires NeverOverwritten(trace, ops, id)
    ensures |firsts[k]| == |trace[k].leads| && Kept(trace[k], firsts[k], id)
  {
    RunTraced(trace, ops, firsts, k);
    assert k > 0;
    var s, op := trace[k - 1], ops[k - 1];
    RunTraced(trace, ops, firsts, k - 1);
    assert Enabled(s, op) && trace[k] == Step(s, op) && firsts[k] == FirstOwners(firsts[k - 1], op);
    if id < |s.leads| {
      RunKeeps(trace, ops, firsts, k - 1, id);
      StepTraces(s, op, firsts[k - 1], id);
      assert !Overwrites(trace[k - 1], ops[k - 1], id);
    } else {
      StepLengths(s, op, firsts[k - 1]);
      CreatedKept(s, op.lead, firsts[k - 1]);
    }
  }

  /** In a run, a lead's history always replays to its present owner exactly if
      no step overwrites that owner without a history row. */
  lemma HistoryReplaysIff(trace: seq<Db>, ops: seq<Op>, firsts: seq<seq<Owner>>, id: nat)
    requires IsRun(trace, ops, firsts)
    ensures AlwaysKept(trace, firsts, id) <==> NeverOverwritten(trace, ops, id)
  {
    if NeverOverwritten(trace, ops, id) {
      forall k | 0 <= k < |trace| && id < |trace[k].leads|
        ensures |firsts[k]| == |trace[k].leads| && Kept(trace[k], firsts[k], id)
      {
        RunKeeps(trace, ops, firsts, k, id);
      }
    }
    if AlwaysKept(trace, firsts, id) {
      forall j | 0 <= j < |ops|
        ensures !Overwrites(trace[j], ops[j], id)
      {
        if id < |trace[j].leads| {
          RunTraced(trace, ops, firsts, j);
          assert Kept(trace[j], firsts[j], id);
          StepTraces(trace[j], ops[j], firsts[j], id);
          assert id < |trace[j + 1].leads| && Kept(trace[j + 1], firsts[j + 1], id);
        }
      }
    }
  }

  predicate ChainBroken(db: Db, first: seq<Owner>, id: nat) {
    id < |db.leads| == |first| && Replay(db.history, id, first[id]) == None
  }

  lemma BrokenStep(db: Db, op: Op, first: seq<Owner>, id: nat)
    requires Enabled(db, op) && Traced(db, first) && ChainBroken(db, first, id)
    ensures ChainBroken(Step(db, op), FirstOwners(first, op), id)
  {
    StepTraces(db, op, first, id);
  }

  lemma {:induction false} BrokenStays(trace: seq<Db>, ops: seq<Op>, firsts: seq<seq<Owner>>, k: nat, later: nat,
                                       id: nat)
    requires IsRun(trace, ops, firsts) && k <= later < |trace| && ChainBroken(trace[k], firsts[k], id)
    ensures ChainBroken(trace[later], firsts[later], id)
  {
    if k < later {
      var last := later - 1;
      BrokenStays(trace, ops, firsts, k, last, id);
      RunTraced(trace, ops, firsts, last);
      RunStep(trace, ops, firsts, last);
      BrokenStep(trace[last], ops[last], firsts[last], id);
    }
  }

  lemma RunStep(trace: seq<Db>, ops: seq<Op>, firsts: seq<seq<Owner>>, k: nat)
    requires IsRun(trace, ops, firsts) && k < |ops|
    ensures Enabled(trace[k], ops[k])
    ensures trace[k + 1] == Step(trace[k], ops[k]) && firsts[k + 1] == FirstOwners(firsts[k], ops[k])
  {}

  /** Once a lead is reassigned while its history does not replay, it never
      will again, whatever is written later. */
  lemma BrokenForGood(trace: seq<Db>, ops: seq<Op>, firsts: seq<seq<Owner>>, k: nat, later: nat, id: nat)
    requires IsRun(trace, ops, firsts) && k < later < |trace| && id < |trace[k].leads| == |firsts[k]|
    requires !Kept(trace[k], firsts[k], id)
    requires Subject(trace[k], ops[k]) == Some(id) && trace[k + 1].history != trace[k].history
    ensures ChainBroken(trace[later], firsts[later], id)
  {
    RunTraced(trace, ops, firsts, k);
    StepTraces(trace[k], ops[k], firsts[k], id);
    BrokenStays(trace, ops, firsts, k + 1, later, id);
  }

  predicate NoLeadsYet(db: Db) {
    db.leads == [] && db.history == [] && db.slas == [] && db.breaches == []
  }

  /** The shortest such run: an active lead is created for somebody, and merged. */
  lemma MergeLosesHistory(db: Db, lead: Lead)
    requires NoLeadsYet(db) && lead.id == 0 && lead.active && lead.owner != UNOWNED
    ensures var created := Step(db, Create(lead));
      var merged := Step(created, Merge(lead, None));
      && IsRun([db, created, merged], [Create(lead), Merge(lead, None)], [[], [lead.owner], [lead.owner]])
      && Overwrites(created, Merge(lead, None), 0)
      && |merged.leads| == 1 && !Kept(merged, [lead.owner], 0)
  {}

  /** An inactive lead, too, if it is handed on between the read and the save:
      the merge puts the old salesman back, and the next assignment breaks the
      chain for good. */
  lemma StaleMergeLosesHistory(db: Db, lead: Lead, env: Env)
    requires NoLeadsYet(db) && lead.id == 0 && !lead.active && lead.owner == Owner(None, Some(0))
    ensures var created := Step(db, Create(lead));
      var handed := Step(created, ByHand(0, 1, None, env));
      var merged := Step(handed, Merge(lead, None));
      var again := Step(merged, ByHand(0, 1, None, env));
      && Overwrites(handed, Merge(lead, None), 0)
      && merged.leads[0].owner == lead.owner && handed.leads[0].owner == Owner(None, Some(1))
      && Replay(merged.history, 0, lead.owner) == Some(Owner(None, Some(1)))
      && Replay(again.history, 0, lead.owner) == None
  {
    var created := Step(db, Create(lead));
    var handed := Step(created, ByHand(0, 1, None, env));
    var merged := Step(handed, Merge(lead, None));
    var again := Step(merged, ByHand(0, 1, None, env));
    assert handed.history[..0] == [];
    assert again.history[..1] == merged.history;
  }

  /** In every reachable state each lead has at most one active instance, and
      each instance has one breach event exactly if it is breached. */
  lemma {:induction false} RunInvariant(trace: seq<Db>, ops: seq<Op>, firsts: seq<seq<Owner>>, k: nat)
    requires IsRun(trace, ops, firsts) && k < |trace|
    ensures SlasSafe(trace[k])
  {
    if k > 0 {
      RunInvariant(trace, ops, firsts, k - 1);
      StepKeepsSlas(trace[k - 1], ops[k - 1]);
    }
  }

  lemma {:induction false} ClosedForGood(trace: seq<Db>, ops: seq<Op>, firsts: seq<seq<Owner>>, k: nat, later: nat,
                                         id: nat)
    requires IsRun(trace, ops, firsts) && k <= later < |trace|
    requires id < |trace[k].slas| && trace[k].slas[id].status != ACTIVE
    ensures id < |trace[later].slas| && trace[later].slas[id] == trace[k].slas[id]
  {
    if k < later {
      var last := later - 1;
      ClosedForGood(trace, ops, firsts, k, last, id);
      RunInvariant(trace, ops, firsts, last);
      RunStep(trace, ops, firsts, last);
      StepKeepsSlas(trace[last], ops[last]);
    }
  }

  /** The step at `k` ran the expiry action of instance `id`. */
  predicate Handles(trace: seq<Db>, ops: seq<Op>, k: nat, id: nat)
    requires k < |ops| && |trace| == |ops| + 1
  {
    && ops[k].Expire? && ops[k].sla == id
    && WellFormed(trace[k])
    && ExpireSlaInstance(trace[k], id, ops[k].policy, ops[k].env, ops[k].fails).1 == Handled
  }

  /** However often, however late, and with whatever failures the job is run,
      it handles an instance at most once. */
  lemma HandledAtMostOnce(trace: seq<Db>, ops: seq<Op>, firsts: seq<seq<Owner>>, j: nat, k: nat, id: nat)
    requires IsRun(trace, ops, firsts) && j < |ops| && k < |ops|
    requires Handles(trace, ops, j, id) && Handles(trace, ops, k, id)
    ensures j == k
  {
    var a, b := if j < k then j else k, if j < k then k else j;
    if a < b {
      ExpiryOutcome(trace[a], id, ops[a].policy, ops[a].env, ops[a].fails);
      ExpiryOutcome(trace[b], id, ops[b].policy, ops[b].env, ops[b].fails);
      assert trace[a + 1].slas[id].status == BREACHED;
      ClosedForGood(trace, ops, firsts, a + 1, b, id);
    }
  }
}
