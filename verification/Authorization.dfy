/** The authorization tables and cache as the services and receivers change them
    in place (apps/authorization/services.py, apps/authorization/signals.py, and
    the callers in apps/accounts/services.py). */
module Authorization {
  import opened Text
  import opened Permissions
  import opened Overrides

  datatype AuditEntry = AuditEntry(user: nat, before: map<Code, Effect>, after: map<Code, Effect>)

  predicate Matches(o: Override, user: nat, code: Code, effect: Effect) {
    IsFor(o, user, code) && o.effect == effect
  }

  lemma {:induction false} UpsertAt(rows: seq<Override>, user: nat, code: Code, effect: Effect, reason: string,
                                    i: nat)
    requires i < |rows| && Matches(rows[i], user, code, effect)
    requires forall k :: 0 <= k < i ==> !Matches(rows[k], user, code, effect)
    ensures Upsert(rows, user, code, effect, reason) == rows[i := rows[i].(reason := reason)]
  {
    if i > 0 {
      UpsertAt(rows[1..], user, code, effect, reason, i - 1);
    }
  }

  lemma {:induction false} UpsertAbsent(rows: seq<Override>, user: nat, code: Code, effect: Effect, reason: string)
    requires forall k :: 0 <= k < |rows| ==> !Matches(rows[k], user, code, effect)
    ensures Upsert(rows, user, code, effect, reason) == rows + [Override(user, code, effect, None, reason)]
  {
    if rows != [] {
      UpsertAbsent(rows[1..], user, code, effect, reason);
    }
  }

  /** What one turn of the deleting loop keeps. */
  lemma PruneStep(rows: seq<Override>, i: nat, user: nat, code: Code, target: Option<Effect>)
    requires i < |rows|
    ensures var left := rows[..i] + Prune(rows[i..], user, code, target);
      if IsFor(rows[i], user, code) && Some(rows[i].effect) != target then
        var fewer := rows[..i] + rows[i + 1..];
        left == fewer[..i] + Prune(fewer[i..], user, code, target)
      else left == rows[..i + 1] + Prune(rows[i + 1..], user, code, target)
  {
    var fewer := rows[..i] + rows[i + 1..];
    assert rows[i..][1..] == rows[i + 1..];
    assert fewer[..i] == rows[..i] && fewer[i..] == rows[i + 1..];
    assert rows[..i + 1] == rows[..i] + [rows[i]];
  }

  function Deactivated(rows: seq<UserRole>, user: nat): (r: seq<UserRole>)
    ensures |r| == |rows|
  {
    seq(|rows|, i requires 0 <= i < |rows| =>
      if rows[i].user == user then rows[i].(active := false) else rows[i])
  }

  lemma DeactivatedRoles(t: Tables, user: nat, u: nat)
    ensures ActiveRoles(t.(userRoles := Deactivated(t.userRoles, user)), u)
         == if u == user then {} else ActiveRoles(t, u)
  {
    var rows := Deactivated(t.userRoles, user);
    forall ur: UserRole | ur.user == u && ur.active
      ensures ur in rows <==> u != user && ur in t.userRoles
    {
      if ur in rows {
        var i :| 0 <= i < |rows| && rows[i] == ur;
        assert t.userRoles[i].user == u;
      }
      if u != user && ur in t.userRoles {
        var i :| 0 <= i < |rows| && t.userRoles[i] == ur;
        assert rows[i] == ur;
      }
    }
  }

  class AuthorizationStore {
    var userRoles: seq<UserRole>
    var rolePermissions: seq<RolePermission>
    var overrides: seq<Override>
    var catalog: map<Code, bool>
    var defaultRole: map<nat, nat>
    var cache: map<nat, Entry>
    var now: int
    var auditLog: seq<AuditEntry>

    function Rows(): Tables
      reads this
    {
      Tables(userRoles, rolePermissions, overrides, catalog)
    }

    ghost function View(): State
      reads this
    {
      State(Rows(), cache, now)
    }

    function DefaultRoleOf(user: nat): Option<nat>
      reads this
    {
      if user in defaultRole then Some(defaultRole[user]) else None
    }

    ghost predicate Valid()
      reads this
    {
      UniqueKeys(overrides)
    }

    constructor (catalog: map<Code, bool>, now: int)
      ensures Valid() && View() == State(Tables([], [], [], catalog), map[], now)
    {
      this.catalog, this.now := catalog, now;
      userRoles, rolePermissions, overrides, defaultRole, cache, auditLog := [], [], [], map[], map[], [];
    }

    method Invalidate(user: nat)
      modifies this`cache
      ensures cache == old(cache) - {user}
    {
      cache := cache - {user};
    }

    /** The receiver of role permission signals. */
    method InvalidateRole(role: nat)
      modifies this`cache
      ensures cache == old(cache) - Holders(Rows(), role)
    {
      var i := 0;
      ghost var done := {};
      while i < |userRoles|
        invariant i <= |userRoles|
        invariant done == set ur | ur in userRoles[..i] && ur.role == role && ur.active :: ur.user
        invariant cache == old(cache) - done
      {
        assert userRoles[..i + 1] == userRoles[..i] + [userRoles[i]];
        if userRoles[i].role == role && userRoles[i].active {
          Invalidate(userRoles[i].user);
          done := done + {userRoles[i].user};
        }
        i := i + 1;
      }
      assert userRoles[..i] == userRoles;
    }

    method SaveUserRole(e: Edit<UserRole>)
      requires Applicable(userRoles, e)
      modifies this`userRoles, this`cache
      ensures View() == Save(old(View()), OnUserRole(e))
    {
      var instance := Instance(userRoles, e);
      userRoles := Apply(userRoles, e);
      Invalidate(instance.user);
    }

    method SaveRolePermission(e: Edit<RolePermission>)
      requires Applicable(rolePermissions, e)
      modifies this`rolePermissions, this`cache
      ensures View() == Save(old(View()), OnRolePermission(e))
    {
      var instance := Instance(rolePermissions, e);
      rolePermissions := Apply(rolePermissions, e);
      InvalidateRole(instance.role);
    }

    method SaveOverride(e: Edit<Override>)
      requires Applicable(overrides, e)
      modifies this`overrides, this`cache
      ensures View() == Save(old(View()), OnOverride(e))
    {
      var instance := Instance(overrides, e);
      overrides := Apply(overrides, e);
      Invalidate(instance.user);
    }

    method ReadCodes(user: nat, authenticated: bool) returns (codes: set<Code>)
      modifies this`cache
      ensures authenticated ==> (View(), codes) == GetCodes(old(View()), user)
      ensures !authenticated ==> codes == {} && cache == old(cache)
    {
      if !authenticated {
        return {};
      }
      if user in cache && now < cache[user].expires {
        return cache[user].codes;
      }
      codes := Compute(Rows(), user, now);
      cache := cache[user := Entry(codes, now + TTL)];
    }

    method AssignRole(user: nat, role: nat)
      modifies this`userRoles, this`cache
      ensures ActiveRoles(Rows(), user) == ActiveRoles(old(Rows()), user) + {role}
      ensures forall u :: u != user ==> ActiveRoles(Rows(), u) == ActiveRoles(old(Rows()), u)
      ensures cache == old(cache) - {user}
    {
      var i := 0;
      while i < |userRoles| && !(userRoles[i].user == user && userRoles[i].role == role)
        invariant i <= |userRoles|
      {
        i := i + 1;
      }
      var row := UserRole(user, role, true);
      ghost var rows := userRoles;
      if i < |userRoles| {
        SaveUserRole(Update(i, row));
        assert userRoles[i] == row;
        forall ur: UserRole | ur.active && ur != row
          ensures ur in userRoles <==> ur in rows
        {
          OtherRowsKept(rows, Update(i, row), ur);
        }
      } else {
        SaveUserRole(Insert(row));
      }
      assert row in userRoles;
      Invalidate(user);
    }

    method SetUserOverride(user: nat, code: Code, effect: Effect, reason: string)
      modifies this`overrides, this`cache
      ensures overrides == Upsert(old(overrides), user, code, effect, reason)
      ensures cache == old(cache) - {user}
    {
      var i := 0;
      while i < |overrides| && !Matches(overrides[i], user, code, effect)
        invariant i <= |overrides|
        invariant forall k :: 0 <= k < i ==> !Matches(overrides[k], user, code, effect)
      {
        i := i + 1;
      }
      if i < |overrides| {
        UpsertAt(overrides, user, code, effect, reason, i);
        SaveOverride(Update(i, overrides[i].(reason := reason)));
      } else {
        UpsertAbsent(overrides, user, code, effect, reason);
        SaveOverride(Insert(Override(user, code, effect, None, reason)));
      }
      Invalidate(user);
    }

    method DeleteOverride(i: nat)
      requires i < |overrides|
      modifies this`overrides, this`cache
      ensures overrides == old(overrides)[..i] + old(overrides)[i + 1..]
      ensures cache == old(cache) - {old(overrides)[i].user}
    {
      SaveOverride(Delete(i));
    }

    /** Deletes the permission's rows of any effect but the target's. */
    method DeleteOthers(user: nat, code: Code, target: Option<Effect>)
      modifies this`overrides, this`cache
      ensures overrides == Prune(old(overrides), user, code, target)
      ensures cache - {user} == old(cache) - {user}
    {
      var i := 0;
      while i < |overrides|
        invariant i <= |overrides|
        invariant overrides[..i] + Prune(overrides[i..], user, code, target)
          == Prune(old(overrides), user, code, target)
        invariant cache - {user} == old(cache) - {user}
        decreases |overrides| - i
      {
        PruneStep(overrides, i, user, code, target);
        if IsFor(overrides[i], user, code) && Some(overrides[i].effect) != target {
          DeleteOverride(i);
        } else {
          i := i + 1;
        }
      }
      assert overrides[..i] == overrides;
    }

    /** Makes the submitted codes effective. `codes` is the enumeration of the
        active permissions the loop goes through. */
    method UpdateUserOverrides(user: nat, submitted: set<Code>, codes: seq<Code>, audit: bool, reason: string)
      requires Valid() && Lists(codes, Rows())
      modifies this`overrides, this`cache, this`auditLog
      ensures Valid()
      ensures Rows() == AfterUpdate(old(Rows()), user, DefaultRoleOf(user), codes, submitted, reason)
      ensures cache == old(cache) - {user}
      ensures auditLog ==
        if audit && AuditView(old(overrides), user) != AuditView(overrides, user)
        then old(auditLog) + [AuditEntry(user, AuditView(old(overrides), user), AuditView(overrides, user))]
        else old(auditLog)
    {
      var before := AuditView(overrides, user);
      var baseline := Baseline(Rows(), DefaultRoleOf(user));
      var i := 0;
      while i < |codes|
        invariant i <= |codes|
        invariant Rewrite(overrides, user, codes[i..], submitted, baseline, reason)
               == Rewrite(old(overrides), user, codes, submitted, baseline, reason)
        invariant UniqueKeys(overrides) && auditLog == old(auditLog)
        invariant cache - {user} == old(cache) - {user}
      {
        var target := Target(codes[i] in submitted, codes[i] in baseline);
        ghost var rows := overrides;
        SettleUnique(rows, user, codes[i], target, reason);
        assert codes[i..][0] == codes[i] && codes[i..][1..] == codes[i + 1..];
        DeleteOthers(user, codes[i], target);
        if target.Some? {
          SetUserOverride(user, codes[i], target.value, reason);
        }
        assert overrides == Settle(rows, user, codes[i], target, reason);
        i := i + 1;
      }
      Invalidate(user);
      var after := AuditView(overrides, user);
      if audit && before != after {
        auditLog := auditLog + [AuditEntry(user, before, after)];
      }
    }

    /** The permission part of creating a user. */
    method CreateUser(user: nat, role: Option<nat>, submitted: Option<set<Code>>, codes: seq<Code>)
      requires Valid() && Lists(codes, Rows())
      requires user !in defaultRole
      requires forall ur :: ur in userRoles ==> ur.user != user
      requires forall o :: o in overrides ==> o.user != user
      modifies this
      ensures Valid() && now == old(now) && auditLog == old(auditLog)
      ensures catalog == old(catalog) && rolePermissions == old(rolePermissions)
      ensures cache - {user} == old(cache) - {user}
      ensures ActiveRoles(Rows(), user) == if role.Some? then {role.value} else {}
      ensures submitted.Some? ==>
        && user !in cache
        && Compute(Rows(), user, now) == set c | c in catalog && Active(Rows(), c) && c in submitted.value
    {
      if role.Some? {
        defaultRole := defaultRole[user := role.value];
        AssignRole(user, role.value);
      }
      if submitted.Some? {
        NewUserGetsSubmitted(Rows(), user, DefaultRoleOf(user), codes, submitted.value,
          "Customized at user creation", now);
        UpdateUserOverrides(user, submitted.value, codes, false, "Customized at user creation");
      }
    }

    /** The permission part of updating a user. Roles held besides the new
        default one stay active; without a default role all are switched off by
        a bulk update, which sends no signal. Only the superuser themselves (or
        no actor at all) may change the superuser. */
    method UpdateUser(actor: Option<nat>, user: nat, isSuperuser: bool, role: Option<nat>,
                      submitted: Option<set<Code>>, codes: seq<Code>) returns (denied: bool)
      requires Valid() && Lists(codes, Rows())
      modifies this
      ensures denied <==> isSuperuser && actor.Some? && actor.value != user
      ensures denied ==> View() == old(View()) && defaultRole == old(defaultRole) && auditLog == old(auditLog)
      ensures Valid() && now == old(now) && (!denied ==> DefaultRoleOf(user) == role)
      ensures catalog == old(catalog) && rolePermissions == old(rolePermissions)
      ensures !denied ==>
        ActiveRoles(Rows(), user) == if role.Some? then ActiveRoles(old(Rows()), user) + {role.value} else {}
      ensures !denied && submitted.Some? && (forall o :: o in old(overrides) && o.user == user ==>
          Unexpired(o, now)) ==>
        && user !in cache
        && forall c :: c in catalog && catalog[c] ==>
             (c in Compute(Rows(), user, now) <==> c in Requested(Rows(), user, role, submitted.value))
      ensures cache == if denied || (role == None && submitted == None) then old(cache) else old(cache) - {user}
    {
      denied := isSuperuser && actor.Some? && actor.value != user;
      if denied {
        return;
      }
      SetDefaultRole(user, role);
      if submitted.Some? {
        ghost var t := Rows();
        UpdateUserOverrides(user, submitted.value, codes, true, MATRIX_REASON);
        if forall o :: o in t.overrides && o.user == user ==> Unexpired(o, now) {
          AssignedRoleGetsRequested(t, user, role, codes, submitted.value, now);
        }
      }
    }

    /** Without a role, the user's roles are switched off by a bulk update. */
    method SetDefaultRole(user: nat, role: Option<nat>)
      modifies this`defaultRole, this`userRoles, this`cache
      ensures DefaultRoleOf(user) == role
      ensures ActiveRoles(Rows(), user) == if role.Some? then ActiveRoles(old(Rows()), user) + {role.value} else {}
      ensures cache == if role == None then old(cache) else old(cache) - {user}
    {
      if role.Some? {
        defaultRole := defaultRole[user := role.value];
        AssignRole(user, role.value);
      } else {
        defaultRole := defaultRole - {user};
        DeactivatedRoles(Rows(), user, user);
        userRoles := Deactivated(userRoles, user);
      }
    }
  }

  const MATRIX_REASON := "Customized at user matrix update"

  /** With the default role assigned and no expired override, the rewriting
      gives what the rewritten tables say was requested. */
  lemma AssignedRoleGetsRequested(t: Tables, user: nat, role: Option<nat>, codes: seq<Code>, submitted: set<Code>,
                                  now: int)
    requires UniqueKeys(t.overrides) && Lists(codes, t)
    requires role.Some? ==> role.value in ActiveRoles(t, user)
    requires forall o :: o in t.overrides && o.user == user ==> Unexpired(o, now)
    ensures var after := AfterUpdate(t, user, role, codes, submitted, MATRIX_REASON);
      forall c :: c in after.catalog && after.catalog[c] ==>
        (c in Compute(after, user, now) <==> c in Requested(after, user, role, submitted))
  {
    var after := AfterUpdate(t, user, role, codes, submitted, MATRIX_REASON);
    AssignedDefaultIsReady(t, user, role, submitted, now);
    RewriteExactIffReady(t, user, role, codes, submitted, MATRIX_REASON, now);
    RequestedIgnoresOverrides(t, after.overrides, user, role, submitted);
  }

  lemma RequestedIgnoresOverrides(t: Tables, rows: seq<Override>, user: nat, role: Option<nat>, submitted: set<Code>)
    ensures Requested(t.(overrides := rows), user, role, submitted) == Requested(t, user, role, submitted)
  {
    var t' := t.(overrides := rows);
    assert ActiveRoles(t', user) == ActiveRoles(t, user);
    forall roles
      ensures RoleCodes(t', roles) == RoleCodes(t, roles)
    {
    }
  }

  function Demote(s: State, user: nat): State {
    s.(tables := s.tables.(userRoles := Deactivated(s.tables.userRoles, user)))
  }

  /** Overrides decide every code the user's roles give. */
  predicate RolesDecided(t: Tables, user: nat, now: int) {
    RoleCodes(t, ActiveRoles(t, user)) <= OverrideCodes(t, user, ALLOW, now) + OverrideCodes(t, user, DENY, now)
  }

  lemma EntryAfterDemotion(s: State, user: nat)
    requires user in s.cache && EntryRight(s, user)
    ensures EntryRight(Demote(s, user), user) <==> RolesDecided(s.tables, user, s.cache[user].expires - TTL)
  {
    var t0 := s.cache[user].expires - TTL;
    DemotionChangesIff(s.tables, user, t0);
    EntryAfterWrite(s, Demote(s, user), user, !RolesDecided(s.tables, user, t0));
  }

  lemma OthersAfterDemotion(s: State, user: nat, u: nat)
    requires u in s.cache && u != user && EntryRight(s, u)
    ensures EntryRight(Demote(s, user), u)
  {
    DemotionKeepsTheRest(s.tables, user, u, s.cache[u].expires - TTL);
    EntryAfterWrite(s, Demote(s, user), u, false);
  }

  /** Dropping a user's default role without resubmitting codes sends no
      signal: the cache stays coherent exactly if the user has no live entry,
      or their roles gave them no code that no override decides. */
  lemma SilentDemotionCoherentIff(s: State, user: nat)
    requires Coherent(s)
    ensures Coherent(Demote(s, user)) <==>
      (Live(s, user) ==> RolesDecided(s.tables, user, s.cache[user].expires - TTL))
  {
    if Live(s, user) {
      EntryAfterDemotion(s, user);
    }
    if Live(s, user) ==> RolesDecided(s.tables, user, s.cache[user].expires - TTL) {
      forall u | Live(Demote(s, user), u)
        ensures EntryRight(Demote(s, user), u)
      {
        assert Live(s, u);
        if u != user {
          OthersAfterDemotion(s, user, u);
        }
      }
    } else {
      assert Live(Demote(s, user), user);
    }
  }

  lemma DemotionKeepsTheRest(t: Tables, user: nat, u: nat, now: int)
    requires u != user
    ensures Compute(t.(userRoles := Deactivated(t.userRoles, user)), u, now) == Compute(t, u, now)
  {
    var t' := t.(userRoles := Deactivated(t.userRoles, user));
    DeactivatedRoles(t, user, u);
    assert RoleCodes(t', ActiveRoles(t', u)) == RoleCodes(t, ActiveRoles(t, u));
    assert OverrideCodes(t', u, ALLOW, now) == OverrideCodes(t, u, ALLOW, now);
    assert OverrideCodes(t', u, DENY, now) == OverrideCodes(t, u, DENY, now);
  }

  lemma DemotionChangesIff(t: Tables, user: nat, now: int)
    ensures Compute(t.(userRoles := Deactivated(t.userRoles, user)), user, now) != Compute(t, user, now)
       <==> !RolesDecided(t, user, now)
  {
    var t' := t.(userRoles := Deactivated(t.userRoles, user));
    DeactivatedRoles(t, user, user);
    assert RoleCodes(t', {}) == {};
    var allow, deny := OverrideCodes(t, user, ALLOW, now), OverrideCodes(t, user, DENY, now);
    assert OverrideCodes(t', user, ALLOW, now) == allow && OverrideCodes(t', user, DENY, now) == deny;
    assert Compute(t', user, now) == {} + allow - deny;
    assert Compute(t, user, now) == {} + RoleCodes(t, ActiveRoles(t, user)) + allow - deny;
    DifferentIff({}, RoleCodes(t, ActiveRoles(t, user)), allow, deny);
    assert {} + allow + deny == allow + deny;
  }
}
