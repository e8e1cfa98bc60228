/** Effective permissions: tables, the resolver's computation, and its cache
    with signal-driven invalidation (apps/authorization/services.py and
    apps/authorization/signals.py). */
module Permissions {
  import opened Text

  type Code = string
  datatype Effect = ALLOW | DENY

  datatype UserRole = UserRole(user: nat, role: nat, active: bool)
  datatype RolePermission = RolePermission(role: nat, code: Code, allow: bool)
  datatype Override = Override(user: nat, code: Code, effect: Effect, expires: Option<int>, reason: string)

  /** `catalog` maps the code of each permission definition to its activity. */
  datatype Tables = Tables(
    userRoles: seq<UserRole>,
    rolePermissions: seq<RolePermission>,
    overrides: seq<Override>,
    catalog: map<Code, bool>)

  predicate Active(t: Tables, code: Code) {
    code in t.catalog && t.catalog[code]
  }

  predicate Unexpired(o: Override, now: int) {
    o.expires == None || o.expires.value > now
  }

  function ActiveRoles(t: Tables, user: nat): set<nat> {
    set ur | ur in t.userRoles && ur.user == user && ur.active :: ur.role
  }

  function RoleCodes(t: Tables, roles: set<nat>): set<Code> {
    set rp | rp in t.rolePermissions && rp.role in roles && rp.allow && Active(t, rp.code) :: rp.code
  }

  function OverrideCodes(t: Tables, user: nat, effect: Effect, now: int): set<Code> {
    set o | o in t.overrides && o.user == user && o.effect == effect && Unexpired(o, now) :: o.code
  }

  /** Active role defaults, plus direct ALLOW, minus direct DENY. */
  function Compute(t: Tables, user: nat, now: int): set<Code> {
    RoleCodes(t, ActiveRoles(t, user)) + OverrideCodes(t, user, ALLOW, now) - OverrideCodes(t, user, DENY, now)
  }

  /** A row of the user that decides the code this way now. */
  predicate Decides(o: Override, user: nat, code: Code, effect: Effect, now: int) {
    o.user == user && o.code == code && o.effect == effect && Unexpired(o, now)
  }

  lemma ComputeMembership(t: Tables, user: nat, now: int, code: Code)
    ensures code in Compute(t, user, now) <==>
      && (code in RoleCodes(t, ActiveRoles(t, user))
          || exists o :: o in t.overrides && Decides(o, user, code, ALLOW, now))
      && !(exists o :: o in t.overrides && Decides(o, user, code, DENY, now))
  {}

  // ---- Row edits ----

  datatype Edit<T> = Insert(row: T) | Update(at: nat, row: T) | Delete(at: nat)

  predicate Applicable<T>(rows: seq<T>, e: Edit<T>) {
    e.Insert? || e.at < |rows|
  }

  function Apply<T>(rows: seq<T>, e: Edit<T>): seq<T>
    requires Applicable(rows, e)
  {
    match e
    case Insert(row) => rows + [row]
    case Update(i, row) => rows[i := row]
    case Delete(i) => rows[..i] + rows[i + 1..]
  }

  /** The instance a post_save or post_delete signal is sent with. */
  function Instance<T>(rows: seq<T>, e: Edit<T>): T
    requires Applicable(rows, e)
  {
    if e.Delete? then rows[e.at] else e.row
  }

  /** The row as it was before the edit. */
  function Before<T>(rows: seq<T>, e: Edit<T>): T
    requires Applicable(rows, e)
  {
    if e.Insert? then e.row else rows[e.at]
  }

  lemma OtherRowsKept<T>(rows: seq<T>, e: Edit<T>, row: T)
    requires Applicable(rows, e)
    requires row != Instance(rows, e) && row != Before(rows, e)
    ensures row in Apply(rows, e) <==> row in rows
  {
    match e {
      case Insert(_) =>
      case Update(i, r) =>
        if row in rows {
          var k :| 0 <= k < |rows| && rows[k] == row;
          assert Apply(rows, e)[k] == row;
        }
      case Delete(i) =>
        if row in rows {
          var k :| 0 <= k < |rows| && rows[k] == row;
          assert row in rows[..i] || row in rows[i + 1..];
        }
    }
  }

  /** A write that sends a signal. */
  datatype Write =
    | OnUserRole(userRole: Edit<UserRole>)
    | OnRolePermission(rolePermission: Edit<RolePermission>)
    | OnOverride(override: Edit<Override>)

  predicate CanWrite(t: Tables, w: Write) {
    match w
    case OnUserRole(e) => Applicable(t.userRoles, e)
    case OnRolePermission(e) => Applicable(t.rolePermissions, e)
    case OnOverride(e) => Applicable(t.overrides, e)
  }

  function WriteTables(t: Tables, w: Write): Tables
    requires CanWrite(t, w)
  {
    match w
    case OnUserRole(e) => t.(userRoles := Apply(t.userRoles, e))
    case OnRolePermission(e) => t.(rolePermissions := Apply(t.rolePermissions, e))
    case OnOverride(e) => t.(overrides := Apply(t.overrides, e))
  }

  function Holders(t: Tables, role: nat): set<nat> {
    set ur | ur in t.userRoles && ur.role == role && ur.active :: ur.user
  }

  /** The users whose cache entries the receivers delete. */
  function Signalled(t: Tables, w: Write): set<nat>
    requires CanWrite(t, w)
  {
    match w
    case OnUserRole(e) => {Instance(t.userRoles, e).user}
    case OnOverride(e) => {Instance(t.overrides, e).user}
    case OnRolePermission(e) => Holders(WriteTables(t, w), Instance(t.rolePermissions, e).role)
  }

  /** The write leaves its row with the user, or the role, it had. */
  predicate KeepsOwner(t: Tables, w: Write)
    requires CanWrite(t, w)
  {
    match w
    case OnUserRole(e) => Before(t.userRoles, e).user == Instance(t.userRoles, e).user
    case OnRolePermission(e) => Before(t.rolePermissions, e).role == Instance(t.rolePermissions, e).role
    case OnOverride(e) => Before(t.overrides, e).user == Instance(t.overrides, e).user
  }

  /** The receivers reach everybody whose permissions can have changed. */
  lemma UnsignalledUnaffected(t: Tables, w: Write, user: nat, now: int)
    requires CanWrite(t, w) && KeepsOwner(t, w) && user !in Signalled(t, w)
    ensures Compute(WriteTables(t, w), user, now) == Compute(t, user, now)
  {
    var t' := WriteTables(t, w);
    match w {
      case OnUserRole(e) =>
        forall ur: UserRole | ur.user == user
          ensures ur in t'.userRoles <==> ur in t.userRoles
        {
          OtherRowsKept(t.userRoles, e, ur);
        }
        assert ActiveRoles(t', user) == ActiveRoles(t, user);
      case OnRolePermission(e) =>
        var roles := ActiveRoles(t, user);
        assert Instance(t.rolePermissions, e).role !in roles;
        forall rp: RolePermission | rp.role in roles
          ensures rp in t'.rolePermissions <==> rp in t.rolePermissions
        {
          OtherRowsKept(t.rolePermissions, e, rp);
        }
        assert RoleCodes(t', roles) == RoleCodes(t, roles);
      case OnOverride(e) =>
        forall o: Override | o.user == user
          ensures o in t'.overrides <==> o in t.overrides
        {
          OtherRowsKept(t.overrides, e, o);
        }
        assert OverrideCodes(t', user, ALLOW, now) == OverrideCodes(t, user, ALLOW, now);
        assert OverrideCodes(t', user, DENY, now) == OverrideCodes(t, user, DENY, now);
    }
  }

  // ---- The cache ----

  const TTL := 300

  datatype Entry = Entry(codes: set<Code>, expires: int)
  datatype State = State(tables: Tables, cache: map<nat, Entry>, now: int)

  function GetCodes(s: State, user: nat): (State, set<Code>) {
    if Live(s, user) then (s, s.cache[user].codes)
    else
      var codes := Compute(s.tables, user, s.now);
      (s.(cache := s.cache[user := Entry(codes, s.now + TTL)]), codes)
  }

  function Save(s: State, w: Write): State
    requires CanWrite(s.tables, w)
  {
    s.(tables := WriteTables(s.tables, w), cache := s.cache - Signalled(s.tables, w))
  }

  /** `Quiet` stands for every write that sends no signal: bulk updates and
      edits of permission definitions. */
  datatype Op = Signal(write: Write) | Quiet(tables: Tables) | Read(user: nat) | Tick(elapsed: nat)

  predicate Enabled(s: State, op: Op) {
    op.Signal? ==> CanWrite(s.tables, op.write)
  }

  function Step(s: State, op: Op): State
    requires Enabled(s, op)
  {
    match op
    case Signal(w) => Save(s, w)
    case Quiet(tables) => s.(tables := tables)
    case Read(user) => GetCodes(s, user).0
    case Tick(elapsed) => s.(now := s.now + elapsed)
  }

  /** `trace` lists the successive states of a run. */
  ghost predicate IsRun(trace: seq<State>, ops: seq<Op>) {
    && |trace| == |ops| + 1
    && trace[0].cache == map[]
    && forall k :: 0 <= k < |ops| ==> Enabled(trace[k], ops[k]) && trace[k + 1] == Step(trace[k], ops[k])
  }

  /** The cache still answers for the user. */
  predicate Live(s: State, user: nat) {
    user in s.cache && s.now < s.cache[user].expires
  }

  /** The entry is what the current tables give at the time it was stored. */
  predicate EntryRight(s: State, user: nat)
    requires user in s.cache
  {
    && s.cache[user].expires <= s.now + TTL
    && s.cache[user].codes == Compute(s.tables, user, s.cache[user].expires - TTL)
  }

  ghost predicate Coherent(s: State) {
    forall user :: Live(s, user) ==> EntryRight(s, user)
  }

  /** The user's live entry survives the save and rested on the moved row. */
  predicate LeftStale(s: State, w: Write, user: nat)
    requires CanWrite(s.tables, w)
  {
    && Live(s, user) && user !in Signalled(s.tables, w)
    && Affected(s.tables, w, user, s.cache[user].expires - TTL)
  }

  /** The step leaves no live entry behind that rested on a moved row. */
  ghost predicate LeavesNoneStale(s: State, op: Op)
    requires Enabled(s, op)
  {
    op.Signal? ==> forall user :: !LeftStale(s, op.write, user)
  }

  lemma EntryAfterWrite(s: State, after: State, user: nat, changed: bool)
    requires user in s.cache && EntryRight(s, user)
    requires user in after.cache && after.cache[user] == s.cache[user] && after.now == s.now
    requires changed <==>
      Compute(after.tables, user, s.cache[user].expires - TTL) != Compute(s.tables, user, s.cache[user].expires - TTL)
    ensures EntryRight(after, user) <==> !changed
  {}

  /** Whose entries a save drops: the row's user's, or those of the users whom
      the tables, as saved, give the row's role; all others stay. */
  lemma InvalidationExact(s: State, w: Write, user: nat)
    requires CanWrite(s.tables, w)
    ensures var after := Save(s, w);
      var dropped :=
        match w
        case OnUserRole(e) => user == Instance(s.tables.userRoles, e).user
        case OnOverride(e) => user == Instance(s.tables.overrides, e).user
        case OnRolePermission(e) =>
          UserRole(user, Instance(s.tables.rolePermissions, e).role, true) in s.tables.userRoles;
      && (user in after.cache <==> user in s.cache && !dropped)
      && (user in after.cache ==> after.cache[user] == s.cache[user])
      && after.now == s.now
  {}

  /** A set that was handed out is handed out again until 300 s after it was
      computed, whatever has been written without a signal in between; nobody
      else's entry is touched by reading. */
  lemma ReadIsCached(s: State, user: nat, tables: Tables, later: int)
    ensures var (s1, codes) := GetCodes(s, user);
      && user in s1.cache && s1.cache[user].codes == codes
      && s1 == s.(cache := s1.cache) && s1.cache - {user} == s.cache - {user}
      && (!Live(s, user) ==> s1.cache[user].expires == s.now + 300)
      && (later < s1.cache[user].expires ==>
            GetCodes(s1.(tables := tables, now := later), user) == (s1.(tables := tables, now := later), codes))
  {}

  /** Without writes that send no signal, a step keeps the cache coherent
      exactly if it leaves no live entry stale. */
  lemma StepCoherentIff(s: State, op: Op)
    requires Coherent(s) && Enabled(s, op) && !op.Quiet?
    ensures Coherent(Step(s, op)) <==> LeavesNoneStale(s, op)
  {
    match op {
      case Signal(w) => SaveCoherentIff(s, w);
      case Read(user) =>
        forall u | Live(Step(s, op), u)
          ensures EntryRight(Step(s, op), u)
        {
          assert Live(s, u) ==> EntryRight(s, u);
        }
      case Tick(elapsed) =>
        forall u | Live(Step(s, op), u)
          ensures EntryRight(Step(s, op), u)
        {
          assert Live(s, u);
        }
    }
  }

  /** A row saved under its owner, inserted or deleted leaves nothing stale. */
  lemma KeepingOwnersIsSafe(s: State, w: Write)
    requires CanWrite(s.tables, w) && KeepsOwner(s.tables, w)
    ensures LeavesNoneStale(s, Signal(w))
  {
    forall user | user in s.cache && user !in Signalled(s.tables, w)
      ensures !LeftStale(s, w, user)
    {
      UnsignalledUnaffected(s.tables, w, user, s.cache[user].expires - TTL);
      UnsignalledChangesIff(s.tables, w, user, s.cache[user].expires - TTL);
    }
  }

  lemma {:induction false} RunCoherent(trace: seq<State>, ops: seq<Op>, k: nat)
    requires IsRun(trace, ops) && k < |trace|
    requires forall j :: 0 <= j < |ops| ==> !ops[j].Quiet? && LeavesNoneStale(trace[j], ops[j])
    ensures Coherent(trace[k])
  {
    if k > 0 {
      RunCoherent(trace, ops, k - 1);
      assert Enabled(trace[k - 1], ops[k - 1]) && LeavesNoneStale(trace[k - 1], ops[k - 1]);
      StepCoherentIff(trace[k - 1], ops[k - 1]);
    }
  }

  /** A run of signalled writes, reads and ticks is coherent throughout exactly
      if none of its saves leaves a live entry stale. Coherence asks for the
      clock at which the entry was stored, which is more than `GetCodesCoherent`
      needs: an entry can be right at another clock of the last 300 s only. */
  lemma RunCoherentIff(trace: seq<State>, ops: seq<Op>)
    requires IsRun(trace, ops) && forall j :: 0 <= j < |ops| ==> !ops[j].Quiet?
    ensures (forall k :: 0 <= k < |trace| ==> Coherent(trace[k])) <==>
      (forall j :: 0 <= j < |ops| ==> LeavesNoneStale(trace[j], ops[j]))
  {
    if forall j :: 0 <= j < |ops| ==> LeavesNoneStale(trace[j], ops[j]) {
      forall k | 0 <= k < |trace|
        ensures Coherent(trace[k])
      {
        RunCoherent(trace, ops, k);
      }
    }
    if forall k :: 0 <= k < |trace| ==> Coherent(trace[k]) {
      forall j | 0 <= j < |ops|
        ensures LeavesNoneStale(trace[j], ops[j])
      {
        assert Coherent(trace[j]) && Coherent(trace[j + 1]);
        StepCoherentIff(trace[j], ops[j]);
      }
    }
  }

  /** Cache coherence: whatever was saved or deleted before, the codes handed
      out are those of the current tables, at a clock less than 300 s ago. */
  lemma GetCodesCoherent(trace: seq<State>, ops: seq<Op>, k: nat, user: nat)
    requires IsRun(trace, ops) && k < |trace|
    requires forall j :: 0 <= j < |ops| ==> !ops[j].Quiet? && LeavesNoneStale(trace[j], ops[j])
    ensures exists t0 ::
      && trace[k].now - 300 < t0 <= trace[k].now
      && GetCodes(trace[k], user).1 == Compute(trace[k].tables, user, t0)
  {
    RunCoherent(trace, ops, k);
    var s := trace[k];
    var t0 := if Live(s, user) then s.cache[user].expires - TTL else s.now;
    assert s.now - TTL < t0 <= s.now && GetCodes(s, user).1 == Compute(s.tables, user, t0);
  }

  /** Each entry records an earlier state of the run, `j`. */
  ghost predicate StoredAt(trace: seq<State>, k: nat, user: nat, j: nat)
    requires j <= k < |trace| && user in trace[k].cache
  {
    && trace[k].cache[user].expires == trace[j].now + TTL
    && trace[k].cache[user].codes == Compute(trace[j].tables, user, trace[j].now)
    && trace[j].now <= trace[k].now
  }

  lemma {:induction false} EntryHasOrigin(trace: seq<State>, ops: seq<Op>, k: nat, user: nat) returns (j: nat)
    requires IsRun(trace, ops) && k < |trace| && user in trace[k].cache
    ensures j <= k && StoredAt(trace, k, user, j)
  {
    assert k > 0;
    var s, op := trace[k - 1], ops[k - 1];
    assert trace[k] == Step(s, op);
    if op == Read(user) && !(user in s.cache && s.now < s.cache[user].expires) {
      j := k - 1;
    } else {
      assert user in s.cache && trace[k].cache[user] == s.cache[user];
      j := EntryHasOrigin(trace, ops, k - 1, user);
      assert StoredAt(trace, k - 1, user, j);
    }
  }

  /** With signal-free writes in the run, the codes are still those of one
      state of the run less than 300 s old. */
  lemma GetCodesBounded(trace: seq<State>, ops: seq<Op>, k: nat, user: nat)
    requires IsRun(trace, ops) && k < |trace|
    ensures exists j ::
      && 0 <= j <= k
      && trace[k].now - 300 < trace[j].now <= trace[k].now
      && GetCodes(trace[k], user).1 == Compute(trace[j].tables, user, trace[j].now)
  {
    var s := trace[k];
    if user in s.cache && s.now < s.cache[user].expires {
      var j := EntryHasOrigin(trace, ops, k, user);
      assert trace[k].now - TTL < trace[j].now <= trace[k].now
        && GetCodes(trace[k], user).1 == Compute(trace[j].tables, user, trace[j].now);
    } else {
      assert GetCodes(trace[k], user).1 == Compute(trace[k].tables, user, trace[k].now);
    }
  }

  // ---- Rows saved under another owner ----

  /** A row other than number `i` equals `row`. */
  predicate Elsewhere<T(==)>(rows: seq<T>, i: nat, row: T) {
    exists k :: 0 <= k < |rows| && k != i && rows[k] == row
  }

  lemma RowsAfterUpdate<T>(rows: seq<T>, i: nat, row: T, x: T)
    requires i < |rows|
    ensures x in rows <==> x == rows[i] || Elsewhere(rows, i, x)
    ensures x in rows[i := row] <==> x == row || Elsewhere(rows, i, x)
  {
    var after := rows[i := row];
    assert after[i] == row;
    if k :| 0 <= k < |rows| && k != i && rows[k] == x {
      assert after[k] == x;
    }
    if x in after && x != row {
      var k :| 0 <= k < |after| && after[k] == x;
      assert rows[k] == x;
    }
  }

  /** The roles the user has by other rows. */
  function OtherRoles(t: Tables, i: nat, user: nat): set<nat> {
    set ur | ur in t.userRoles && Elsewhere(t.userRoles, i, ur) && ur.user == user && ur.active :: ur.role
  }

  /** The user holds the row's role by it alone, and thereby some code that no
      override decides. */
  predicate LosesRole(t: Tables, i: nat, user: nat, now: int)
    requires i < |t.userRoles|
  {
    var was := t.userRoles[i];
    && was.user == user && was.active
    && !(RoleCodes(t, {was.role}) <= RoleCodes(t, OtherRoles(t, i, user))
           + OverrideCodes(t, user, ALLOW, now) + OverrideCodes(t, user, DENY, now))
  }

  predicate GrantsCode(rp: RolePermission, code: Code) {
    rp.code == code && rp.allow
  }

  /** The row alone gives the user its code, and no override decides it. */
  predicate LosesCode(t: Tables, i: nat, user: nat, now: int)
    requires i < |t.rolePermissions|
  {
    var was := t.rolePermissions[i];
    && was.role in ActiveRoles(t, user) && was.allow && Active(t, was.code)
    && was.code !in OverrideCodes(t, user, ALLOW, now)
    && was.code !in OverrideCodes(t, user, DENY, now)
    && forall rp :: rp in t.rolePermissions && Elsewhere(t.rolePermissions, i, rp) && GrantsCode(rp, was.code) ==>
         rp.role !in ActiveRoles(t, user)
  }

  /** The codes that the user's other rows decide this way. */
  function OtherOverrideCodes(t: Tables, i: nat, user: nat, effect: Effect, now: int): set<Code> {
    set o | o in t.overrides && Elsewhere(t.overrides, i, o) && o.user == user && o.effect == effect
      && Unexpired(o, now)
      :: o.code
  }

  /** The row alone decides its code for the user, against what is left. */
  predicate LosesOverride(t: Tables, i: nat, user: nat, now: int)
    requires i < |t.overrides|
  {
    var was := t.overrides[i];
    && was.user == user && Unexpired(was, now)
    && was.code !in OtherOverrideCodes(t, i, user, was.effect, now)
    && match was.effect
       case ALLOW => was.code !in RoleCodes(t, ActiveRoles(t, user)) + OverrideCodes(t, user, DENY, now)
       case DENY => was.code in RoleCodes(t, ActiveRoles(t, user)) + OverrideCodes(t, user, ALLOW, now)
  }

  /** Moving a row away from its owner costs this user a code, or a denial. */
  predicate Affected(t: Tables, w: Write, user: nat, now: int)
    requires CanWrite(t, w)
  {
    match w
    case OnUserRole(e) => e.Update? && LosesRole(t, e.at, user, now)
    case OnRolePermission(e) => e.Update? && LosesCode(t, e.at, user, now)
    case OnOverride(e) => e.Update? && LosesOverride(t, e.at, user, now)
  }

  lemma MovedUserRole(t: Tables, i: nat, row: UserRole, user: nat, now: int)
    requires i < |t.userRoles| && row.user != user
    ensures Compute(t.(userRoles := t.userRoles[i := row]), user, now) != Compute(t, user, now)
       <==> LosesRole(t, i, user, now)
  {
    var t' := t.(userRoles := t.userRoles[i := row]);
    var was := t.userRoles[i];
    forall ur: UserRole
      ensures ur in t.userRoles <==> ur == was || Elsewhere(t.userRoles, i, ur)
      ensures ur in t'.userRoles <==> ur == row || Elsewhere(t.userRoles, i, ur)
    {
      RowsAfterUpdate(t.userRoles, i, row, ur);
    }
    var others := OtherRoles(t, i, user);
    assert ActiveRoles(t', user) == others;
    assert ActiveRoles(t, user) == others + (if was.user == user && was.active then {was.role} else {});
    RolesUnion(t, others, was.role);
    assert RoleCodes(t', others) == RoleCodes(t, others);
    assert OverrideCodes(t', user, ALLOW, now) == OverrideCodes(t, user, ALLOW, now);
    assert OverrideCodes(t', user, DENY, now) == OverrideCodes(t, user, DENY, now);
    DifferentIff(RoleCodes(t, others), if was.user == user && was.active then RoleCodes(t, {was.role}) else {},
      OverrideCodes(t, user, ALLOW, now), OverrideCodes(t, user, DENY, now));
  }

  lemma RolesUnion(t: Tables, roles: set<nat>, role: nat)
    ensures RoleCodes(t, roles + {role}) == RoleCodes(t, roles) + RoleCodes(t, {role})
  {}

  /** Taking `gone` out of what is granted shows exactly if some of it is
      neither granted otherwise nor decided by an override. */
  lemma DifferentIff(kept: set<Code>, gone: set<Code>, allow: set<Code>, deny: set<Code>)
    ensures kept + allow - deny != kept + gone + allow - deny <==> !(gone <= kept + allow + deny)
  {
    if c :| c in gone && c !in kept + allow + deny {
      assert c in kept + gone + allow - deny;
    } else {
      assert kept + allow - deny == kept + gone + allow - deny;
    }
  }

  lemma MovedRolePermission(t: Tables, i: nat, row: RolePermission, user: nat, now: int)
    requires i < |t.rolePermissions| && row.role !in ActiveRoles(t, user)
    ensures Compute(t.(rolePermissions := t.rolePermissions[i := row]), user, now) != Compute(t, user, now)
       <==> LosesCode(t, i, user, now)
  {
    var t' := t.(rolePermissions := t.rolePermissions[i := row]);
    var was := t.rolePermissions[i];
    var roles := ActiveRoles(t, user);
    forall rp: RolePermission
      ensures rp in t.rolePermissions <==> rp == was || Elsewhere(t.rolePermissions, i, rp)
      ensures rp in t'.rolePermissions <==> rp == row || Elsewhere(t.rolePermissions, i, rp)
    {
      RowsAfterUpdate(t.rolePermissions, i, row, rp);
    }
    var gone := if was.role in roles && was.allow && Active(t, was.code) then {was.code} else {};
    var kept := RoleCodes(t', roles);
    assert RoleCodes(t, roles) == kept + gone;
    assert OverrideCodes(t', user, ALLOW, now) == OverrideCodes(t, user, ALLOW, now);
    assert OverrideCodes(t', user, DENY, now) == OverrideCodes(t, user, DENY, now);
    DifferentIff(kept, gone, OverrideCodes(t, user, ALLOW, now), OverrideCodes(t, user, DENY, now));
  }

  lemma MovedOverride(t: Tables, i: nat, row: Override, user: nat, now: int)
    requires i < |t.overrides| && row.user != user
    ensures Compute(t.(overrides := t.overrides[i := row]), user, now) != Compute(t, user, now)
       <==> LosesOverride(t, i, user, now)
  {
    var t' := t.(overrides := t.overrides[i := row]);
    var was := t.overrides[i];
    forall o: Override
      ensures o in t.overrides <==> o == was || Elsewhere(t.overrides, i, o)
      ensures o in t'.overrides <==> o == row || Elsewhere(t.overrides, i, o)
    {
      RowsAfterUpdate(t.overrides, i, row, o);
    }
    assert RoleCodes(t', ActiveRoles(t', user)) == RoleCodes(t, ActiveRoles(t, user));
    forall effect: Effect
      ensures OverrideCodes(t', user, effect, now) == OtherOverrideCodes(t, i, user, effect, now)
      ensures OverrideCodes(t, user, effect, now) == OtherOverrideCodes(t, i, user, effect, now)
        + (if was.user == user && was.effect == effect && Unexpired(was, now) then {was.code} else {})
    {}
    var roles, a, d := RoleCodes(t, ActiveRoles(t, user)),
      OtherOverrideCodes(t, i, user, ALLOW, now), OtherOverrideCodes(t, i, user, DENY, now);
    assert Compute(t', user, now) == roles + a - d;
    if was.user == user && Unexpired(was, now) {
      var c := was.code;
      if was.effect == ALLOW {
        assert Compute(t, user, now) == roles + (a + {c}) - d;
        AddingAllow(roles, a, d, c);
      } else {
        assert Compute(t, user, now) == roles + a - (d + {c});
        AddingDeny(roles, a, d, c);
      }
    } else {
      assert Compute(t, user, now) == roles + a - d;
    }
  }

  lemma AddingAllow(roles: set<Code>, a: set<Code>, d: set<Code>, c: Code)
    ensures roles + a - d != roles + (a + {c}) - d <==> c !in a && c !in roles + d
  {
    if c in a || c in roles + d {
      assert roles + a - d == roles + (a + {c}) - d;
    } else {
      assert c in roles + (a + {c}) - d;
    }
  }

  lemma AddingDeny(roles: set<Code>, a: set<Code>, d: set<Code>, c: Code)
    ensures roles + a - d != roles + a - (d + {c}) <==> c !in d && c in roles + a
  {
    if c in d || c !in roles + a {
      assert roles + a - d == roles + a - (d + {c});
    } else {
      assert c in roles + a - d;
    }
  }

  /** For everybody a write does not signal: it changes what they may do
      exactly if it moves a row that alone decides a code for them. */
  lemma UnsignalledChangesIff(t: Tables, w: Write, user: nat, now: int)
    requires CanWrite(t, w) && user !in Signalled(t, w)
    ensures Compute(WriteTables(t, w), user, now) != Compute(t, user, now) <==> Affected(t, w, user, now)
  {
    match w {
      case OnUserRole(e) =>
        if e.Update? {
          MovedUserRole(t, e.at, e.row, user, now);
        } else {
          UnsignalledUnaffected(t, w, user, now);
        }
      case OnRolePermission(e) =>
        if e.Update? {
          MovedRolePermission(t, e.at, e.row, user, now);
        } else {
          UnsignalledUnaffected(t, w, user, now);
        }
      case OnOverride(e) =>
        if e.Update? {
          MovedOverride(t, e.at, e.row, user, now);
        } else {
          UnsignalledUnaffected(t, w, user, now);
        }
    }
  }

  lemma EntryAfterSave(s: State, w: Write, user: nat)
    requires CanWrite(s.tables, w) && user in s.cache && user !in Signalled(s.tables, w)
    requires EntryRight(s, user)
    ensures EntryRight(Save(s, w), user) <==> !Affected(s.tables, w, user, s.cache[user].expires - TTL)
  {
    var t0 := s.cache[user].expires - TTL;
    var affected := Affected(s.tables, w, user, t0);
    UnsignalledChangesIff(s.tables, w, user, t0);
    EntryAfterWrite(s, Save(s, w), user, affected);
  }

  lemma StaleEntryBreaks(s: State, w: Write, user: nat)
    requires CanWrite(s.tables, w) && LeftStale(s, w, user) && EntryRight(s, user)
    ensures !Coherent(Save(s, w))
  {
    EntryAfterSave(s, w, user);
    assert Live(Save(s, w), user);
  }

  lemma NoStaleEntryKeeps(s: State, w: Write)
    requires Coherent(s) && CanWrite(s.tables, w) && forall user :: !LeftStale(s, w, user)
    ensures Coherent(Save(s, w))
  {
    forall user | Live(Save(s, w), user)
      ensures EntryRight(Save(s, w), user)
    {
      assert Live(s, user) && !LeftStale(s, w, user);
      EntryAfterSave(s, w, user);
    }
  }

  /** Exactly when a signalled save keeps the cache coherent: nobody it does
      not signal has a live entry that rested on the moved row alone. */
  lemma SaveCoherentIff(s: State, w: Write)
    requires Coherent(s) && CanWrite(s.tables, w)
    ensures Coherent(Save(s, w)) <==> forall user :: !LeftStale(s, w, user)
  {
    if user :| LeftStale(s, w, user) {
      StaleEntryBreaks(s, w, user);
    } else {
      NoStaleEntryKeeps(s, w);
    }
  }

  /** It can happen, by editing a user role: its former user keeps a code that
      the current tables give at no clock at all. */
  lemma MovedUserRoleGoesStale(code: Code, now: int)
    ensures var t := Tables([UserRole(1, 1, true)], [RolePermission(1, code, true)], [], map[code := true]);
      var s := GetCodes(State(t, map[], now), 1).0;
      var after := Save(s, OnUserRole(Update(0, UserRole(2, 1, true))));
      && Coherent(s) && !Coherent(after)
      && GetCodes(after, 1).1 == {code}
      && forall t0 :: Compute(after.tables, 1, t0) == {}
  {
    var t := Tables([UserRole(1, 1, true)], [RolePermission(1, code, true)], [], map[code := true]);
    var s := GetCodes(State(t, map[], now), 1).0;
    var w := OnUserRole(Update(0, UserRole(2, 1, true)));
    var after := Save(s, w);
    assert t.userRoles[0] in t.userRoles && t.rolePermissions[0] in t.rolePermissions;
    assert Compute(t, 1, now) == {code};
    forall t0
      ensures Compute(after.tables, 1, t0) == {}
    {
      assert ActiveRoles(after.tables, 1) == {};
    }
    assert Live(after, 1) && !EntryRight(after, 1);
  }
}
