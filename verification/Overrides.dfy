/** Rewriting a user's overrides so that a submitted code set becomes effective
    (`update_user_overrides` in apps/authorization/services.py). */
module Overrides {
  import opened Text
  import opened Permissions

  predicate IsFor(o: Override, user: nat, code: Code) {
    o.user == user && o.code == code
  }

  /** The rows of one user and permission, in table order. */
  function RowsOf(rows: seq<Override>, user: nat, code: Code): seq<Override> {
    if rows == [] then []
    else (if IsFor(rows[0], user, code) then [rows[0]] else []) + RowsOf(rows[1..], user, code)
  }

  /** The table's unique constraint: one row per user, permission and effect. */
  predicate UniqueKeys(rows: seq<Override>) {
    forall i, j :: 0 <= i < j < |rows| ==>
      !(IsFor(rows[i], rows[j].user, rows[j].code) && rows[i].effect == rows[j].effect)
  }

  /** The effect a permission needs so that it is granted exactly if checked,
      given whether the default role grants it. */
  function Target(checked: bool, inRole: bool): Option<Effect> {
    if checked && !inRole then Some(ALLOW)
    else if !checked && inRole then Some(DENY)
    else None
  }

  function Prune(rows: seq<Override>, user: nat, code: Code, target: Option<Effect>): seq<Override> {
    if rows == [] then []
    else
      (if IsFor(rows[0], user, code) && Some(rows[0].effect) != target then [] else [rows[0]])
      + Prune(rows[1..], user, code, target)
  }

  /** update_or_create on the unique key: an existing row keeps its expiry. */
  function Upsert(rows: seq<Override>, user: nat, code: Code, effect: Effect, reason: string): seq<Override> {
    if rows == [] then [Override(user, code, effect, None, reason)]
    else if IsFor(rows[0], user, code) && rows[0].effect == effect then
      [rows[0].(reason := reason)] + rows[1..]
    else [rows[0]] + Upsert(rows[1..], user, code, effect, reason)
  }

  function Settle(rows: seq<Override>, user: nat, code: Code, target: Option<Effect>, reason: string): seq<Override> {
    var pruned := Prune(rows, user, code, target);
    if target.Some? then Upsert(pruned, user, code, target.value, reason) else pruned
  }

  /** The whole loop over the active permissions, `codes`. */
  function Rewrite(rows: seq<Override>, user: nat, codes: seq<Code>, submitted: set<Code>,
                   baseline: set<Code>, reason: string): seq<Override>
    decreases |codes|
  {
    if codes == [] then rows
    else
      var target := Target(codes[0] in submitted, codes[0] in baseline);
      Rewrite(Settle(rows, user, codes[0], target, reason), user, codes[1..], submitted, baseline, reason)
  }

  predicate Distinct(codes: seq<Code>) {
    forall i, j :: 0 <= i < j < |codes| ==> codes[i] != codes[j]
  }

  // ---- One permission ----

  lemma {:induction false} RowsOfMember(rows: seq<Override>, user: nat, code: Code, o: Override)
    ensures o in RowsOf(rows, user, code) <==> o in rows && IsFor(o, user, code)
  {
    if rows != [] {
      RowsOfMember(rows[1..], user, code, o);
      assert o in rows <==> o == rows[0] || o in rows[1..];
    }
  }

  lemma {:induction false} PruneRows(rows: seq<Override>, user: nat, code: Code, target: Option<Effect>, u: nat,
                                     c: Code)
    ensures RowsOf(Prune(rows, user, code, target), u, c) ==
      if u == user && c == code then Prune(RowsOf(rows, u, c), user, code, target) else RowsOf(rows, u, c)
  {
    if rows != [] {
      PruneRows(rows[1..], user, code, target, u, c);
      var tail := Prune(rows[1..], user, code, target);
      if IsFor(rows[0], user, code) && Some(rows[0].effect) != target {
        assert Prune(rows, user, code, target) == tail;
      } else {
        assert Prune(rows, user, code, target) == [rows[0]] + tail;
        assert ([rows[0]] + tail)[1..] == tail;
      }
      if IsFor(rows[0], u, c) {
        assert RowsOf(rows, u, c)[1..] == RowsOf(rows[1..], u, c);
      } else {
        assert RowsOf(rows, u, c) == RowsOf(rows[1..], u, c);
      }
    }
  }

  lemma {:induction false} UpsertRows(rows: seq<Override>, user: nat, code: Code, effect: Effect, reason: string,
                                      u: nat, c: Code)
    ensures RowsOf(Upsert(rows, user, code, effect, reason), u, c) ==
      if u == user && c == code then Upsert(RowsOf(rows, u, c), user, code, effect, reason) else RowsOf(rows, u, c)
  {
    var after := Upsert(rows, user, code, effect, reason);
    if rows == [] {
      assert after[1..] == [];
    } else {
      UpsertRows(rows[1..], user, code, effect, reason, u, c);
      assert after[1..] == if IsFor(rows[0], user, code) && rows[0].effect == effect
                           then rows[1..] else Upsert(rows[1..], user, code, effect, reason);
      if IsFor(rows[0], u, c) {
        assert RowsOf(rows, u, c)[1..] == RowsOf(rows[1..], u, c);
      } else {
        assert RowsOf(rows, u, c) == RowsOf(rows[1..], u, c);
      }
    }
  }

  lemma SettleRows(rows: seq<Override>, user: nat, code: Code, target: Option<Effect>, reason: string, u: nat,
                   c: Code)
    ensures RowsOf(Settle(rows, user, code, target, reason), u, c) ==
      if u == user && c == code then Settle(RowsOf(rows, u, c), user, code, target, reason) else RowsOf(rows, u, c)
  {
    PruneRows(rows, user, code, target, u, c);
    if target.Some? {
      UpsertRows(Prune(rows, user, code, target), user, code, target.value, reason, u, c);
    }
  }

  lemma {:induction false} RowsOfUnique(rows: seq<Override>, user: nat, code: Code)
    requires UniqueKeys(rows)
    ensures var own := RowsOf(rows, user, code);
      && UniqueKeys(own)
      && forall i :: 0 <= i < |own| ==> IsFor(own[i], user, code)
  {
    if rows != [] {
      RowsOfUnique(rows[1..], user, code);
      var rest := RowsOf(rows[1..], user, code);
      if IsFor(rows[0], user, code) {
        forall i | 0 <= i < |rest|
          ensures rest[i].effect != rows[0].effect
        {
          RowsOfMember(rows[1..], user, code, rest[i]);
        }
        assert RowsOf(rows, user, code) == [rows[0]] + rest;
      } else {
        assert RowsOf(rows, user, code) == rest;
      }
    }
  }

  /** The expiry the surviving row will carry. */
  function KeptExpiry(own: seq<Override>, effect: Effect): Option<int> {
    if own == [] then None
    else if own[0].effect == effect then own[0].expires
    else KeptExpiry(own[1..], effect)
  }

  lemma {:induction false} PruneAbsent(own: seq<Override>, user: nat, code: Code, target: Option<Effect>)
    requires forall i :: 0 <= i < |own| ==> IsFor(own[i], user, code) && Some(own[i].effect) != target
    ensures Prune(own, user, code, target) == []
  {
    if own != [] {
      PruneAbsent(own[1..], user, code, target);
    }
  }

  /** Of one permission's rows, pruning keeps the one of the target's effect. */
  lemma {:induction false} PruneOwn(own: seq<Override>, user: nat, code: Code, effect: Effect)
    requires UniqueKeys(own)
    requires forall i :: 0 <= i < |own| ==> IsFor(own[i], user, code)
    ensures var kept := Prune(own, user, code, Some(effect));
      || (kept == [] && KeptExpiry(own, effect) == None)
      || (|kept| == 1 && IsFor(kept[0], user, code) && kept[0].effect == effect
          && kept[0].expires == KeptExpiry(own, effect))
  {
    if own != [] {
      if own[0].effect == effect {
        forall i | 0 <= i < |own[1..]|
          ensures own[1..][i].effect != effect
        {
          assert own[1..][i] == own[i + 1];
        }
        PruneAbsent(own[1..], user, code, Some(effect));
      } else {
        PruneOwn(own[1..], user, code, effect);
      }
    }
  }

  /** What the rows of one permission are after the rewrite. */
  function Rewritten(own: seq<Override>, user: nat, code: Code, target: Option<Effect>,
                     reason: string): seq<Override> {
    if target == None then []
    else [Override(user, code, target.value, KeptExpiry(own, target.value), reason)]
  }

  /** After settling, the permission has no row, or just the target's. */
  lemma SettleOwn(own: seq<Override>, user: nat, code: Code, target: Option<Effect>, reason: string)
    requires UniqueKeys(own)
    requires forall i :: 0 <= i < |own| ==> IsFor(own[i], user, code)
    ensures Settle(own, user, code, target, reason) == Rewritten(own, user, code, target, reason)
  {
    match target {
      case None =>
        PruneAbsent(own, user, code, None);
      case Some(effect) =>
        PruneOwn(own, user, code, effect);
        var kept := Prune(own, user, code, target);
        if kept != [] {
          assert kept[1..] == [];
        }
    }
  }

  lemma {:induction false} PruneUnique(rows: seq<Override>, user: nat, code: Code, target: Option<Effect>)
    requires UniqueKeys(rows)
    ensures UniqueKeys(Prune(rows, user, code, target))
    ensures forall o :: o in Prune(rows, user, code, target) ==> o in rows
  {
    if rows != [] {
      PruneUnique(rows[1..], user, code, target);
      var tail := Prune(rows[1..], user, code, target);
      forall j | 0 <= j < |tail|
        ensures !(IsFor(rows[0], tail[j].user, tail[j].code) && rows[0].effect == tail[j].effect)
      {
        assert tail[j] in rows[1..];
      }
    }
  }

  lemma {:induction false} UpsertUnique(rows: seq<Override>, user: nat, code: Code, effect: Effect, reason: string)
    requires UniqueKeys(rows)
    ensures UniqueKeys(Upsert(rows, user, code, effect, reason))
    ensures forall o :: o in Upsert(rows, user, code, effect, reason) ==>
      (IsFor(o, user, code) && o.effect == effect) || o in rows
  {
    if rows != [] && !(IsFor(rows[0], user, code) && rows[0].effect == effect) {
      UpsertUnique(rows[1..], user, code, effect, reason);
      var tail := Upsert(rows[1..], user, code, effect, reason);
      forall j | 0 <= j < |tail|
        ensures !(IsFor(rows[0], tail[j].user, tail[j].code) && rows[0].effect == tail[j].effect)
      {
        assert tail[j] in tail;
      }
    }
  }

  lemma SettleUnique(rows: seq<Override>, user: nat, code: Code, target: Option<Effect>, reason: string)
    requires UniqueKeys(rows)
    ensures UniqueKeys(Settle(rows, user, code, target, reason))
  {
    PruneUnique(rows, user, code, target);
    if target.Some? {
      UpsertUnique(Prune(rows, user, code, target), user, code, target.value, reason);
    }
  }

  // ---- All permissions ----

  /** The rewrite, permission by permission: each listed one is left with the
      target's row alone, or none; every other row of anybody is untouched. */
  lemma {:induction false} RewriteRows(rows: seq<Override>, user: nat, codes: seq<Code>, submitted: set<Code>,
                                       baseline: set<Code>, reason: string, u: nat, c: Code)
    requires UniqueKeys(rows) && Distinct(codes)
    ensures UniqueKeys(Rewrite(rows, user, codes, submitted, baseline, reason))
    ensures RowsOf(Rewrite(rows, user, codes, submitted, baseline, reason), u, c) ==
      if u == user && c in codes
      then Rewritten(RowsOf(rows, u, c), user, c, Target(c in submitted, c in baseline), reason)
      else RowsOf(rows, u, c)
    decreases |codes|
  {
    if codes != [] {
      var target := Target(codes[0] in submitted, codes[0] in baseline);
      var settled := Settle(rows, user, codes[0], target, reason);
      SettleUnique(rows, user, codes[0], target, reason);
      SettleRows(rows, user, codes[0], target, reason, u, c);
      RowsOfUnique(rows, user, codes[0]);
      SettleOwn(RowsOf(rows, user, codes[0]), user, codes[0], target, reason);
      RewriteRows(settled, user, codes[1..], submitted, baseline, reason, u, c);
      assert c in codes <==> c == codes[0] || c in codes[1..];
      assert codes[0] !in codes[1..];
    }
  }

  // ---- The effective set afterwards ----

  /** `codes` lists the active permissions. */
  predicate Lists(codes: seq<Code>, t: Tables) {
    && Distinct(codes)
    && (forall i :: 0 <= i < |codes| ==> Active(t, codes[i]))
    && (forall code :: code in t.catalog && t.catalog[code] ==> code in codes)
  }

  function Baseline(t: Tables, defaultRole: Option<nat>): set<Code> {
    if defaultRole.Some? then RoleCodes(t, {defaultRole.value}) else {}
  }

  function AfterUpdate(t: Tables, user: nat, defaultRole: Option<nat>, codes: seq<Code>,
                       submitted: set<Code>, reason: string): Tables {
    t.(overrides := Rewrite(t.overrides, user, codes, submitted, Baseline(t, defaultRole), reason))
  }

  predicate HasExpired(t: Tables, user: nat, code: Code, effect: Effect, now: int) {
    exists o :: o in t.overrides && IsFor(o, user, code) && o.effect == effect && !Unexpired(o, now)
  }

  /** What the administrator asked for: the submitted codes, and whatever other
      roles grant beyond the boxes the form controls. */
  function Requested(t: Tables, user: nat, defaultRole: Option<nat>, submitted: set<Code>): set<Code> {
    var others := if defaultRole.Some? then ActiveRoles(t, user) - {defaultRole.value} else ActiveRoles(t, user);
    (set c | c in t.catalog && Active(t, c) && c in submitted)
    + (RoleCodes(t, others) - submitted - Baseline(t, defaultRole))
  }

  /** What must hold beforehand: the default role really grants the checked
      codes left to it, and no expired row of the wanted effect is in the way. */
  predicate Ready(t: Tables, user: nat, defaultRole: Option<nat>, submitted: set<Code>, now: int) {
    var baseline, granted := Baseline(t, defaultRole), RoleCodes(t, ActiveRoles(t, user));
    forall c :: c in t.catalog && t.catalog[c] ==>
      && (c in submitted && c in baseline ==> c in granted)
      && (c in submitted && c !in baseline && HasExpired(t, user, c, ALLOW, now) ==> c in granted)
      && (c !in submitted && c in baseline && HasExpired(t, user, c, DENY, now) ==> c !in granted)
  }

  lemma {:induction false} KeptExpiryOf(own: seq<Override>, user: nat, code: Code, effect: Effect, now: int)
    requires UniqueKeys(own)
    requires forall i :: 0 <= i < |own| ==> IsFor(own[i], user, code)
    ensures (KeptExpiry(own, effect) == None || KeptExpiry(own, effect).value > now)
      <==> !(exists o :: o in own && o.effect == effect && !Unexpired(o, now))
  {
    if own != [] {
      KeptExpiryOf(own[1..], user, code, effect, now);
      assert forall o :: o in own <==> o == own[0] || o in own[1..];
      if own[0].effect == effect {
        forall o | o in own[1..]
          ensures o.effect != effect
        {
          var k :| 0 <= k < |own[1..]| && own[1..][k] == o;
          assert own[k + 1] == o;
        }
      }
    }
  }

  /** Whether an active permission is effective after the rewrite. */
  lemma EffectiveAfter(t: Tables, user: nat, defaultRole: Option<nat>, codes: seq<Code>,
                       submitted: set<Code>, reason: string, now: int, c: Code)
    requires UniqueKeys(t.overrides) && Lists(codes, t) && Active(t, c)
    ensures var granted := c in RoleCodes(t, ActiveRoles(t, user));
      c in Compute(AfterUpdate(t, user, defaultRole, codes, submitted, reason), user, now) <==>
        match Target(c in submitted, c in Baseline(t, defaultRole))
        case None => granted
        case Some(ALLOW) => granted || !HasExpired(t, user, c, ALLOW, now)
        case Some(DENY) => granted && HasExpired(t, user, c, DENY, now)
  {
    var t' := AfterUpdate(t, user, defaultRole, codes, submitted, reason);
    var baseline := Baseline(t, defaultRole);
    var target := Target(c in submitted, c in baseline);
    var own := RowsOf(t.overrides, user, c);
    RewriteRows(t.overrides, user, codes, submitted, baseline, reason, user, c);
    forall o
      ensures o in t'.overrides && IsFor(o, user, c) <==> o in Rewritten(own, user, c, target, reason)
      ensures o in t.overrides && IsFor(o, user, c) <==> o in own
    {
      RowsOfMember(t'.overrides, user, c, o);
      RowsOfMember(t.overrides, user, c, o);
    }
    assert RoleCodes(t', ActiveRoles(t', user)) == RoleCodes(t, ActiveRoles(t, user));
    ComputeMembership(t', user, now, c);
    RowsOfUnique(t.overrides, user, c);
    if target.Some? {
      KeptExpiryOf(own, user, c, target.value, now);
      var row := Override(user, c, target.value, KeptExpiry(own, target.value), reason);
      assert Rewritten(own, user, c, target, reason) == [row];
      assert row in t'.overrides;
      assert HasExpired(t, user, c, target.value, now)
        <==> exists o :: o in own && o.effect == target.value && !Unexpired(o, now);
    }
  }

  lemma RequestedMembership(t: Tables, user: nat, defaultRole: Option<nat>, submitted: set<Code>, c: Code)
    requires Active(t, c)
    ensures c in Requested(t, user, defaultRole, submitted) <==>
      || c in submitted
      || (c !in Baseline(t, defaultRole) && c in RoleCodes(t, ActiveRoles(t, user)))
  {
    if c !in submitted && c !in Baseline(t, defaultRole) && c in RoleCodes(t, ActiveRoles(t, user)) {
      var rp :| rp in t.rolePermissions && rp.role in ActiveRoles(t, user) && rp.allow && rp.code == c;
      assert defaultRole.Some? ==> rp.role != defaultRole.value;
    }
  }

  /** The rewrite delivers the request on the active permissions exactly when
      the tables were ready for it. */
  lemma RewriteExactIffReady(t: Tables, user: nat, defaultRole: Option<nat>, codes: seq<Code>,
                             submitted: set<Code>, reason: string, now: int)
    requires UniqueKeys(t.overrides) && Lists(codes, t)
    ensures Ready(t, user, defaultRole, submitted, now) <==>
      forall c :: c in t.catalog && t.catalog[c] ==>
        (c in Compute(AfterUpdate(t, user, defaultRole, codes, submitted, reason), user, now)
         <==> c in Requested(t, user, defaultRole, submitted))
  {
    forall c | c in t.catalog && t.catalog[c]
      ensures
        (c in Compute(AfterUpdate(t, user, defaultRole, codes, submitted, reason), user, now)
         <==> c in Requested(t, user, defaultRole, submitted))
        <==>
        (var baseline, granted := Baseline(t, defaultRole), RoleCodes(t, ActiveRoles(t, user));
         && (c in submitted && c in baseline ==> c in granted)
         && (c in submitted && c !in baseline && HasExpired(t, user, c, ALLOW, now) ==> c in granted)
         && (c !in submitted && c in baseline && HasExpired(t, user, c, DENY, now) ==> c !in granted))
    {
      EffectiveAfter(t, user, defaultRole, codes, submitted, reason, now, c);
      RequestedMembership(t, user, defaultRole, submitted, c);
    }
  }

  /** The usual situation is ready: the default role, if any, is actively
      assigned, and the user has no expired row. */
  lemma AssignedDefaultIsReady(t: Tables, user: nat, defaultRole: Option<nat>, submitted: set<Code>, now: int)
    requires defaultRole.Some? ==> defaultRole.value in ActiveRoles(t, user)
    requires forall o :: o in t.overrides && o.user == user ==> Unexpired(o, now)
    ensures Ready(t, user, defaultRole, submitted, now)
  {
    assert Baseline(t, defaultRole) <= RoleCodes(t, ActiveRoles(t, user));
  }

  /** A user with no rows but the default role gets exactly the active
      submitted codes. */
  lemma NewUserGetsSubmitted(t: Tables, user: nat, defaultRole: Option<nat>, codes: seq<Code>,
                             submitted: set<Code>, reason: string, now: int)
    requires UniqueKeys(t.overrides) && Lists(codes, t)
    requires forall o :: o in t.overrides ==> o.user != user
    requires ActiveRoles(t, user) == if defaultRole.Some? then {defaultRole.value} else {}
    ensures Compute(AfterUpdate(t, user, defaultRole, codes, submitted, reason), user, now)
         == set c | c in t.catalog && Active(t, c) && c in submitted
  {
    var t' := AfterUpdate(t, user, defaultRole, codes, submitted, reason);
    AssignedDefaultIsReady(t, user, defaultRole, submitted, now);
    RewriteExactIffReady(t, user, defaultRole, codes, submitted, reason, now);
    forall c
      ensures c in Compute(t', user, now) <==> Active(t, c) && c in submitted
    {
      if Active(t, c) {
        RequestedMembership(t, user, defaultRole, submitted, c);
      } else {
        ComputeMembership(t', user, now, c);
        RewriteRows(t.overrides, user, codes, submitted, Baseline(t, defaultRole), reason, user, c);
        forall o
          ensures !(o in t'.overrides && IsFor(o, user, c))
        {
          RowsOfMember(t'.overrides, user, c, o);
          RowsOfMember(t.overrides, user, c, o);
        }
      }
    }
  }

  /** It can fail: the rewriting reuses an expired row, and the submitted code
      is not effective. */
  lemma ExpiredRowHidesSubmitted(code: Code, reason: string, now: int)
    ensures var t := Tables([], [], [Override(1, code, ALLOW, Some(now), "")], map[code := true]);
      && UniqueKeys(t.overrides) && Lists([code], t)
      && !Ready(t, 1, None, {code}, now)
      && code in Requested(t, 1, None, {code})
      && code !in Compute(AfterUpdate(t, 1, None, [code], {code}, reason), 1, now)
  {
    var t := Tables([], [], [Override(1, code, ALLOW, Some(now), "")], map[code := true]);
    assert t.overrides[0] in t.overrides && HasExpired(t, 1, code, ALLOW, now);
    assert [code][0] in [code];
    EffectiveAfter(t, 1, None, [code], {code}, reason, now, code);
  }

  /** It can fail without any override: the form leaves a checked code to the
      default role, which is not assigned. */
  lemma UnassignedDefaultHidesSubmitted(code: Code, reason: string, now: int)
    ensures var t := Tables([], [RolePermission(1, code, true)], [], map[code := true]);
      && UniqueKeys(t.overrides) && Lists([code], t)
      && !Ready(t, 1, Some(1), {code}, now)
      && code in Requested(t, 1, Some(1), {code})
      && code !in Compute(AfterUpdate(t, 1, Some(1), [code], {code}, reason), 1, now)
  {
    var t := Tables([], [RolePermission(1, code, true)], [], map[code := true]);
    assert t.rolePermissions[0] in t.rolePermissions;
    assert [code][0] in [code];
    EffectiveAfter(t, 1, Some(1), [code], {code}, reason, now, code);
  }

  // ---- A second call ----

  predicate SameButReason(a: seq<Override>, b: seq<Override>) {
    |a| == |b| && forall i :: 0 <= i < |a| ==> a[i].(reason := "") == b[i].(reason := "")
  }

  /** The audit snapshot: effect by code, a later row overwriting an earlier. */
  function AuditView(rows: seq<Override>, user: nat): map<Code, Effect> {
    if rows == [] then map[]
    else
      var last := rows[|rows| - 1];
      var rest := AuditView(rows[..|rows| - 1], user);
      if last.user == user then rest[last.code := last.effect] else rest
  }

  lemma {:induction false} AuditViewDomain(rows: seq<Override>, user: nat, code: Code)
    ensures code in AuditView(rows, user) <==> exists i :: 0 <= i < |rows| && IsFor(rows[i], user, code)
  {
    if rows != [] {
      var n := |rows| - 1;
      AuditViewDomain(rows[..n], user, code);
      if i :| 0 <= i < |rows| && IsFor(rows[i], user, code) {
        assert i < n ==> IsFor(rows[..n][i], user, code);
      }
      if i :| 0 <= i < n && IsFor(rows[..n][i], user, code) {
        assert IsFor(rows[i], user, code);
      }
    }
  }

  /** Row `i` is the user's last one for the code. */
  predicate LastFor(rows: seq<Override>, user: nat, code: Code, i: nat) {
    i < |rows| && IsFor(rows[i], user, code) && forall j :: i < j < |rows| ==> !IsFor(rows[j], user, code)
  }

  lemma {:induction false} AuditViewValue(rows: seq<Override>, user: nat, code: Code) returns (i: nat)
    requires code in AuditView(rows, user)
    ensures LastFor(rows, user, code, i) && rows[i].effect == AuditView(rows, user)[code]
  {
    var n := |rows| - 1;
    if IsFor(rows[n], user, code) {
      i := n;
    } else {
      i := AuditViewValue(rows[..n], user, code);
      assert forall j :: i < j < n ==> rows[j] == rows[..n][j];
    }
  }

  /** The snapshot holds exactly the codes the user has a row for, each with the
      effect of the last such row. */
  lemma AuditViewExact(rows: seq<Override>, user: nat, code: Code)
    ensures var view := AuditView(rows, user);
      && (code in view <==> exists i :: 0 <= i < |rows| && IsFor(rows[i], user, code))
      && (code in view ==> exists i: nat :: LastFor(rows, user, code, i) && rows[i].effect == view[code])
  {
    AuditViewDomain(rows, user, code);
    if code in AuditView(rows, user) {
      var i := AuditViewValue(rows, user, code);
    }
  }

  lemma {:induction false} AuditViewIgnoresReason(a: seq<Override>, b: seq<Override>, user: nat)
    requires SameButReason(a, b)
    ensures AuditView(a, user) == AuditView(b, user)
  {
    if a != [] {
      var n := |a| - 1;
      assert a[n].(reason := "") == b[n].(reason := "");
      AuditViewIgnoresReason(a[..n], b[..n], user);
    }
  }

  lemma CodesIgnoreReason(t: Tables, rows: seq<Override>, user: nat, effect: Effect, now: int)
    requires SameButReason(t.overrides, rows)
    ensures OverrideCodes(t, user, effect, now) <= OverrideCodes(t.(overrides := rows), user, effect, now)
  {
    forall o | o in t.overrides && o.user == user && o.effect == effect && Unexpired(o, now)
      ensures o.code in OverrideCodes(t.(overrides := rows), user, effect, now)
    {
      var i :| 0 <= i < |rows| && t.overrides[i] == o;
      assert rows[i].(reason := "") == o.(reason := "");
      assert rows[i] in rows;
    }
  }

  lemma ComputeIgnoresReason(t: Tables, rows: seq<Override>, user: nat, now: int)
    requires SameButReason(t.overrides, rows)
    ensures Compute(t.(overrides := rows), user, now) == Compute(t, user, now)
  {
    var t' := t.(overrides := rows);
    assert t'.(overrides := t.overrides) == t;
    CodesIgnoreReason(t, rows, user, ALLOW, now);
    CodesIgnoreReason(t, rows, user, DENY, now);
    CodesIgnoreReason(t', t.overrides, user, ALLOW, now);
    CodesIgnoreReason(t', t.overrides, user, DENY, now);
    assert RoleCodes(t', ActiveRoles(t', user)) == RoleCodes(t, ActiveRoles(t, user));
  }

  /** The permission's rows are already the target's. */
  predicate Settled(rows: seq<Override>, user: nat, code: Code, target: Option<Effect>) {
    && (forall i :: 0 <= i < |rows| && IsFor(rows[i], user, code) ==> Some(rows[i].effect) == target)
    && (target.Some? ==> exists i :: 0 <= i < |rows| && IsFor(rows[i], user, code))
  }

  lemma {:induction false} PruneSettled(rows: seq<Override>, user: nat, code: Code, target: Option<Effect>)
    requires forall i :: 0 <= i < |rows| && IsFor(rows[i], user, code) ==> Some(rows[i].effect) == target
    ensures Prune(rows, user, code, target) == rows
  {
    if rows != [] {
      PruneSettled(rows[1..], user, code, target);
    }
  }

  lemma {:induction false} UpsertSettled(rows: seq<Override>, user: nat, code: Code, effect: Effect, reason: string,
                                         i: nat)
    requires i < |rows| && IsFor(rows[i], user, code) && rows[i].effect == effect
    ensures SameButReason(Upsert(rows, user, code, effect, reason), rows)
  {
    if !(IsFor(rows[0], user, code) && rows[0].effect == effect) {
      UpsertSettled(rows[1..], user, code, effect, reason, i - 1);
    }
  }

  lemma SettleAgain(rows: seq<Override>, user: nat, code: Code, target: Option<Effect>, reason: string)
    requires Settled(rows, user, code, target)
    ensures SameButReason(Settle(rows, user, code, target, reason), rows)
  {
    PruneSettled(rows, user, code, target);
    if target.Some? {
      var i :| 0 <= i < |rows| && IsFor(rows[i], user, code);
      UpsertSettled(rows, user, code, target.value, reason, i);
    }
  }

  lemma SettledIgnoresReason(a: seq<Override>, b: seq<Override>, user: nat, code: Code, target: Option<Effect>)
    requires SameButReason(a, b) && Settled(a, user, code, target)
    ensures Settled(b, user, code, target)
  {
    assert forall i :: 0 <= i < |a| ==> a[i].(reason := "") == b[i].(reason := "");
    assert forall i :: 0 <= i < |a| ==>
      IsFor(a[i], user, code) == IsFor(b[i], user, code) && a[i].effect == b[i].effect by {
      forall i | 0 <= i < |a|
        ensures IsFor(a[i], user, code) == IsFor(b[i], user, code) && a[i].effect == b[i].effect
      {
        assert a[i].(reason := "") == b[i].(reason := "");
      }
    }
  }

  lemma {:induction false} RewriteSettled(rows: seq<Override>, user: nat, codes: seq<Code>, submitted: set<Code>,
                                          baseline: set<Code>, reason: string)
    requires forall i :: 0 <= i < |codes| ==>
      Settled(rows, user, codes[i], Target(codes[i] in submitted, codes[i] in baseline))
    ensures SameButReason(Rewrite(rows, user, codes, submitted, baseline, reason), rows)
    decreases |codes|
  {
    if codes != [] {
      var target := Target(codes[0] in submitted, codes[0] in baseline);
      var next := Settle(rows, user, codes[0], target, reason);
      SettleAgain(rows, user, codes[0], target, reason);
      forall i | 0 <= i < |codes[1..]|
        ensures Settled(next, user, codes[1..][i], Target(codes[1..][i] in submitted, codes[1..][i] in baseline))
      {
        SettledIgnoresReason(rows, next, user, codes[i + 1],
          Target(codes[i + 1] in submitted, codes[i + 1] in baseline));
      }
      RewriteSettled(next, user, codes[1..], submitted, baseline, reason);
      var final := Rewrite(rows, user, codes, submitted, baseline, reason);
      forall i | 0 <= i < |rows|
        ensures final[i].(reason := "") == rows[i].(reason := "")
      {
        assert final[i].(reason := "") == next[i].(reason := "");
        assert next[i].(reason := "") == rows[i].(reason := "");
      }
    }
  }

  /** A second call with the same codes changes nothing but the reason texts,
      so it has no effect and nothing to log. */
  lemma SecondCallIsSilent(t: Tables, user: nat, defaultRole: Option<nat>, codes: seq<Code>,
                           submitted: set<Code>, reason1: string, reason2: string, now: int)
    requires UniqueKeys(t.overrides) && Lists(codes, t)
    ensures var once := AfterUpdate(t, user, defaultRole, codes, submitted, reason1);
      var twice := AfterUpdate(once, user, defaultRole, codes, submitted, reason2);
      && SameButReason(twice.overrides, once.overrides)
      && AuditView(twice.overrides, user) == AuditView(once.overrides, user)
      && forall u :: Compute(twice, u, now) == Compute(once, u, now)
  {
    var once := AfterUpdate(t, user, defaultRole, codes, submitted, reason1);
    var twice := AfterUpdate(once, user, defaultRole, codes, submitted, reason2);
    var baseline := Baseline(t, defaultRole);
    assert Baseline(once, defaultRole) == baseline;
    forall i | 0 <= i < |codes|
      ensures Settled(once.overrides, user, codes[i], Target(codes[i] in submitted, codes[i] in baseline))
    {
      var target := Target(codes[i] in submitted, codes[i] in baseline);
      RewriteRows(t.overrides, user, codes, submitted, baseline, reason1, user, codes[i]);
      var rows := Rewritten(RowsOf(t.overrides, user, codes[i]), user, codes[i], target, reason1);
      forall o
        ensures o in once.overrides && IsFor(o, user, codes[i]) <==> o in rows
      {
        RowsOfMember(once.overrides, user, codes[i], o);
      }
      if target.Some? {
        assert rows[0] in once.overrides && IsFor(rows[0], user, codes[i]);
      }
    }
    RewriteSettled(once.overrides, user, codes, submitted, baseline, reason2);
    assert SameButReason(once.overrides, twice.overrides) by {
      forall i | 0 <= i < |once.overrides|
        ensures once.overrides[i].(reason := "") == twice.overrides[i].(reason := "")
      {
        assert twice.overrides[i].(reason := "") == once.overrides[i].(reason := "");
      }
    }
    AuditViewIgnoresReason(twice.overrides, once.overrides, user);
    forall u
      ensures Compute(twice, u, now) == Compute(once, u, now)
    {
      ComputeIgnoresReason(once, twice.overrides, u, now);
    }
  }
}
