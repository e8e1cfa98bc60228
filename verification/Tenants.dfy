/** Tenant names, routing by path prefix, and the per-tenant namespace of the
    shared cache (apps/tenants, plus the two users of `current_scope`). */
module Tenants {
  import opened Text

  // ---- Slugs (apps/tenants/services.py) ----

  predicate IsSpace(c: char) {
    || '\t' <= c <= '\r' || '\U{1c}' <= c <= ' ' || c == '\U{85}' || c == '\U{a0}'
    || c == '\U{1680}' || '\U{2000}' <= c <= '\U{200a}' || c == '\U{2028}' || c == '\U{2029}'
    || c == '\U{202f}' || c == '\U{205f}' || c == '\U{3000}'
  }

  function StripLeft(s: string): string {
    if s != "" && IsSpace(s[0]) then StripLeft(s[1..]) else s
  }

  function StripRight(s: string): string {
    if s != "" && IsSpace(s[|s| - 1]) then StripRight(s[..|s| - 1]) else s
  }

  function Strip(s: string): string {
    StripRight(StripLeft(s))
  }

  /** Lower-casing of the ASCII letters. */
  function Lower(s: string): (r: string)
    ensures |r| == |s|
  {
    seq(|s|, i requires 0 <= i < |s| =>
      if 'A' <= s[i] <= 'Z' then (s[i] as int + 32) as char else s[i])
  }

  predicate IsAlnum(c: char) {
    'a' <= c <= 'z' || IsDigit(c)
  }

  /** `^[a-z0-9]([a-z0-9-]{0,61}[a-z0-9])?` followed by the end of the string. */
  predicate MatchesWhole(s: string) {
    && 1 <= |s| <= 63
    && IsAlnum(s[0]) && IsAlnum(s[|s| - 1])
    && forall i :: 0 <= i < |s| ==> IsAlnum(s[i]) || s[i] == '-'
  }

  /** In a Python pattern, `$` also matches just before a final newline. */
  predicate MatchesSlugPattern(s: string) {
    MatchesWhole(s) || (|s| > 0 && s[|s| - 1] == '\n' && MatchesWhole(s[..|s| - 1]))
  }

  function ValidateSlug(raw: string, existing: set<string>): Option<string> {
    var slug := Lower(Strip(raw));
    if !MatchesSlugPattern(slug) then None
    else if slug in existing then None
    else Some(slug)
  }

  lemma {:induction false} StripRightEdge(s: string)
    ensures StripRight(s) <= s
    ensures StripRight(s) != "" ==> !IsSpace(StripRight(s)[|StripRight(s)| - 1])
  {
    if s != "" && IsSpace(s[|s| - 1]) {
      StripRightEdge(s[..|s| - 1]);
    }
  }

  lemma {:induction false} StripLeftEdge(s: string)
    ensures StripLeft(s) != "" ==> !IsSpace(StripLeft(s)[0])
  {
    if s != "" && IsSpace(s[0]) {
      StripLeftEdge(s[1..]);
    }
  }

  lemma StripEdges(s: string)
    ensures var r := Strip(s); r != "" ==> !IsSpace(r[0]) && !IsSpace(r[|r| - 1])
  {
    StripLeftEdge(s);
    StripRightEdge(StripLeft(s));
  }

  lemma StripFixes(s: string)
    requires s != "" && !IsSpace(s[0]) && !IsSpace(s[|s| - 1])
    ensures Strip(s) == s
  {}

  lemma LowerNewline(s: string, i: nat)
    requires i < |s|
    ensures Lower(s)[i] == '\n' <==> s[i] == '\n'
  {}

  /** Every accepted slug is wholly of the pattern's shape and new: stripping
      first closes the final-newline hole of `$`. */
  lemma ValidatedSlugIsClean(raw: string, existing: set<string>)
    ensures ValidateSlug(raw, existing).Some? ==>
      var slug := ValidateSlug(raw, existing).value; MatchesWhole(slug) && slug !in existing
  {
    StripEdges(raw);
    var stripped := Strip(raw);
    if stripped != "" {
      LowerNewline(stripped, |stripped| - 1);
    }
  }

  // ---- What stripping means ----

  predicate Blank(s: string) {
    forall i :: 0 <= i < |s| ==> IsSpace(s[i])
  }

  /** Not empty, and no blank at either end. */
  predicate Inked(s: string) {
    s != "" && !IsSpace(s[0]) && !IsSpace(s[|s| - 1])
  }

  /** The text is `core` with any blanks around it. */
  ghost predicate Padded(text: string, core: string) {
    Inked(core) && exists a, b :: Blank(a) && Blank(b) && text == a + core + b
  }

  lemma {:induction false} StripLeftPadding(a: string, s: string)
    requires Blank(a) && s != "" && !IsSpace(s[0])
    ensures StripLeft(a + s) == s
  {
    if a != "" {
      StripLeftPadding(a[1..], s);
      assert (a + s)[1..] == a[1..] + s;
    } else {
      assert a + s == s;
    }
  }

  lemma {:induction false} StripRightPadding(s: string, b: string)
    requires Blank(b) && s != "" && !IsSpace(s[|s| - 1])
    ensures StripRight(s + b) == s
  {
    if b != "" {
      StripRightPadding(s, b[..|b| - 1]);
      assert (s + b)[..|s + b| - 1] == s + b[..|b| - 1];
    } else {
      assert s + b == s;
    }
  }

  lemma {:induction false} StripLeftDrops(s: string) returns (a: string)
    ensures Blank(a) && s == a + StripLeft(s)
  {
    if s != "" && IsSpace(s[0]) {
      a := StripLeftDrops(s[1..]);
      a := [s[0]] + a;
    } else {
      a := "";
    }
  }

  lemma {:induction false} StripRightDrops(s: string) returns (b: string)
    ensures Blank(b) && s == StripRight(s) + b
  {
    if s != "" && IsSpace(s[|s| - 1]) {
      b := StripRightDrops(s[..|s| - 1]);
      b := b + [s[|s| - 1]];
    } else {
      b := "";
    }
  }

  lemma StrippedIsPadded(text: string)
    requires Strip(text) != ""
    ensures Padded(text, Strip(text))
  {
    StripEdges(text);
    var a := StripLeftDrops(text);
    var b := StripRightDrops(StripLeft(text));
    assert text == a + Strip(text) + b;
  }

  lemma PaddingIsStripped(a: string, core: string, b: string)
    requires Inked(core) && Blank(a) && Blank(b)
    ensures Strip(a + core + b) == core
  {
    assert a + core + b == a + (core + b);
    assert (core + b)[0] == core[0];
    StripLeftPadding(a, core + b);
    StripRightPadding(core, b);
  }

  /** Stripping leaves exactly what the blanks surround. */
  lemma StripIsPadding(text: string, core: string)
    ensures Strip(text) == core && core != "" <==> Padded(text, core)
  {
    if Strip(text) == core && core != "" {
      StrippedIsPadded(text);
    }
    if Padded(text, core) {
      var a, b :| Blank(a) && Blank(b) && text == a + core + b;
      PaddingIsStripped(a, core, b);
    }
  }

  lemma StripBlank(s: string)
    ensures Strip(s) == "" <==> Blank(s)
  {
    var a := StripLeftDrops(s);
    var b := StripRightDrops(StripLeft(s));
    if Strip(s) == "" {
      assert s == a + b;
    } else {
      StripEdges(s);
      assert s == a + Strip(s) + b;
      assert s[|a|] == Strip(s)[0];
    }
  }

  /** Lower-casing maps capital letters to the small ones in their places. */
  lemma LowerExact(s: string, i: nat)
    requires i < |s|
    ensures Lower(s)[i] == if 'A' <= s[i] <= 'Z' then 'a' + (s[i] - 'A') else s[i]
  {}

  /** Exactly which texts are accepted, and what comes back: the text without
      its padding and in lower case, of letters, digits and inner hyphens, at
      most 63 of them, and new. */
  lemma SlugAcceptedIff(raw: string, existing: set<string>, slug: string)
    ensures ValidateSlug(raw, existing) == Some(slug) <==>
      && (exists core :: Padded(raw, core) && slug == Lower(core))
      && slug !in existing
      && 1 <= |slug| <= 63 && slug[0] != '-' && slug[|slug| - 1] != '-'
      && forall i :: 0 <= i < |slug| ==> 'a' <= slug[i] <= 'z' || '0' <= slug[i] <= '9' || slug[i] == '-'
  {
    var stripped := Strip(raw);
    if ValidateSlug(raw, existing) == Some(slug) {
      ValidatedSlugIsClean(raw, existing);
      StripIsPadding(raw, stripped);
    }
    if core :| Padded(raw, core) && slug == Lower(core) {
      StripIsPadding(raw, core);
    }
  }

  // ---- Database names and cache scopes ----

  function Underscored(s: string): (r: string)
    ensures |r| == |s|
  {
    seq(|s|, i requires 0 <= i < |s| => if s[i] == '-' then '_' else s[i])
  }

  function DbName(slug: string): string {
    "argoz_" + Underscored(slug)
  }

  function DbAlias(slug: string): string {
    "tenant_" + slug
  }

  lemma DbNameInjective(a: string, b: string)
    requires MatchesWhole(a) && MatchesWhole(b)
    requires DbName(a) == DbName(b)
    ensures a == b
  {
    assert DbName(a)[6..] == Underscored(a) && DbName(b)[6..] == Underscored(b);
    forall i | 0 <= i < |a|
      ensures a[i] == b[i]
    {
      assert Underscored(a)[i] == Underscored(b)[i];
      assert IsAlnum(a[i]) || a[i] == '-';
      assert IsAlnum(b[i]) || b[i] == '-';
    }
  }

  /** The pattern admits 63 characters, yet only slugs of at most 58 leave the
      database name within its 64-character column. */
  lemma DbNameFitsColumn(slug: string)
    requires MatchesWhole(slug)
    ensures |DbName(slug)| <= 64 <==> |slug| <= 58
  {}

  /** The namespace of shared keys: the active alias, or the control plane. */
  function CurrentScope(alias: Option<string>): string {
    if alias.Some? && alias.value != "" then alias.value else "default"
  }

  predicate NoColon(s: string) {
    forall i :: 0 <= i < |s| ==> s[i] != ':'
  }

  /** The scopes that occur: the control plane's and those of valid slugs. */
  ghost predicate ValidScope(scope: string) {
    scope == "default" || exists slug :: MatchesWhole(slug) && scope == DbAlias(slug)
  }

  lemma ScopeHasNoColon(scope: string)
    requires ValidScope(scope)
    ensures NoColon(scope)
  {
    if scope != "default" {
      var slug :| MatchesWhole(slug) && scope == DbAlias(slug);
      forall i | 0 <= i < |scope|
        ensures scope[i] != ':'
      {
        if i >= 7 {
          assert scope[i] == slug[i - 7];
        }
      }
    }
  }

  /** No tenant shares a scope with another tenant or with the control plane. */
  lemma ScopesSeparateTenants(a: Option<string>, b: Option<string>)
    requires a.Some? ==> MatchesWhole(a.value)
    requires b.Some? ==> MatchesWhole(b.value)
    requires
      CurrentScope(if a.Some? then Some(DbAlias(a.value)) else None) ==
      CurrentScope(if b.Some? then Some(DbAlias(b.value)) else None)
    ensures a == b
  {
    if a.Some? {
      assert DbAlias(a.value)[7..] == a.value && DbAlias(a.value)[0] == 't';
    }
    if b.Some? {
      assert DbAlias(b.value)[7..] == b.value && DbAlias(b.value)[0] == 't';
    }
  }

  const IDEMPOTENCY_PREFIX := "crm_idempotency_key_"
  const PERMISSION_PREFIX := "effperm:"

  function ScopedKey(prefix: string, scope: string, key: string): string {
    prefix + scope + ":" + key
  }

  lemma ScopedKeyInjective(prefix: string, s1: string, k1: string, s2: string, k2: string)
    requires ValidScope(s1) && ValidScope(s2)
    requires ScopedKey(prefix, s1, k1) == ScopedKey(prefix, s2, k2)
    ensures s1 == s2 && k1 == k2
  {
    ScopeHasNoColon(s1);
    ScopeHasNoColon(s2);
    var t1, t2 := s1 + ":" + k1, s2 + ":" + k2;
    assert ScopedKey(prefix, s1, k1) == prefix + t1 && ScopedKey(prefix, s2, k2) == prefix + t2;
    assert (prefix + t1)[|prefix|..] == t1 && (prefix + t2)[|prefix|..] == t2;
    assert t1[|s1|] == ':' && t2[|s2|] == ':';
    assert |s1| == |s2|;
    assert t1[..|s1|] == s1 && t2[..|s2|] == s2;
    assert t1[|s1| + 1..] == k1 && t2[|s2| + 1..] == k2;
  }

  /** Whatever key a client sends, it never lands on a cached permission set. */
  lemma KeyFamiliesDisjoint(s1: string, k1: string, s2: string, k2: string)
    ensures ScopedKey(IDEMPOTENCY_PREFIX, s1, k1) != ScopedKey(PERMISSION_PREFIX, s2, k2)
  {
    assert ScopedKey(IDEMPOTENCY_PREFIX, s1, k1)[0] == 'c';
    assert ScopedKey(PERMISSION_PREFIX, s2, k2)[0] == 'e';
  }

  /** How the names read. */
  lemma NamesSpelled()
    ensures DbName("a-b") == "argoz_a_b" && DbAlias("a-b") == "tenant_a-b"
    ensures CurrentScope(None) == "default" && CurrentScope(Some(DbAlias("a-b"))) == "tenant_a-b"
    ensures ScopedKey(IDEMPOTENCY_PREFIX, "default", "k") == "crm_idempotency_key_default:k"
    ensures ScopedKey(PERMISSION_PREFIX, "tenant_a-b", "7") == "effperm:tenant_a-b:7"
  {}

  // ---- Path prefixes (apps/tenants/asgi.py and apps/tenants/middleware.py) ----

  const PREFIX := "/t/"

  /** The position of the first slash, or the length when there is none. */
  function FirstSlash(s: string): (k: nat)
    ensures k <= |s| && (k < |s| ==> s[k] == '/')
    ensures forall i :: 0 <= i < k ==> s[i] != '/'
  {
    if s == "" || s[0] == '/' then 0 else 1 + FirstSlash(s[1..])
  }

  /** The WebSocket splitter. */
  function SplitTenant(path: string): (Option<string>, string) {
    if !(PREFIX <= path) then (None, path)
    else
      var tail := path[|PREFIX|..];
      var k := FirstSlash(tail);
      var slug := tail[..k];
      var rest := if k < |tail| then tail[k + 1..] else "";
      (if slug != "" then Some(slug) else None, "/" + rest)
  }

  datatype Route = ControlPlane | NoTenant | Mounted(slug: string, pathInfo: string)

  /** The HTTP stripper, up to the tenant lookup. */
  function HttpRoute(path: string): Route {
    if !(PREFIX <= path) then ControlPlane
    else
      var tail := path[|PREFIX|..];
      var slug := tail[..FirstSlash(tail)];
      if slug == "" then NoTenant
      else
        var mount := PREFIX + slug;
        var stripped := path[|mount|..];
        Mounted(slug, if stripped != "" then stripped else "/")
  }

  lemma RoutersAgree(path: string)
    requires PREFIX <= path
    ensures HttpRoute(path) ==
      match SplitTenant(path)
      case (None, _) => NoTenant
      case (Some(slug), rest) => Mounted(slug, rest)
  {
    var tail := path[|PREFIX|..];
    var k := FirstSlash(tail);
    assert path[|PREFIX + tail[..k]|..] == tail[k..];
    if k < |tail| {
      assert tail[k..] == "/" + tail[k + 1..];
    }
  }

  /** Stripping loses nothing: remounting gives the path back, with a slash
      added exactly when the path ended with the slug. */
  lemma RemountRestoresPath(path: string)
    requires HttpRoute(path).Mounted?
    ensures var r := HttpRoute(path);
      PREFIX + r.slug + r.pathInfo == if PREFIX + r.slug == path then path + "/" else path
  {
    var tail := path[|PREFIX|..];
    var k := FirstSlash(tail);
    assert path == PREFIX + tail && tail == tail[..k] + tail[k..];
    assert path[|PREFIX + tail[..k]|..] == tail[k..];
    assert PREFIX + tail[..k] + tail[k..] == path;
    if k == |tail| {
      assert PREFIX + tail[..k] == path;
    } else {
      assert |PREFIX + tail[..k]| < |path|;
    }
  }

  /** Every mounted URL routes back to its own tenant and path. */
  lemma MountedUrlRoutesBack(slug: string, pathInfo: string)
    requires MatchesWhole(slug) && pathInfo != "" && pathInfo[0] == '/'
    ensures HttpRoute(PREFIX + slug + pathInfo) == Mounted(slug, pathInfo)
    ensures SplitTenant(PREFIX + slug + pathInfo) == (Some(slug), pathInfo)
  {
    var path := PREFIX + slug + pathInfo;
    var tail := path[|PREFIX|..];
    assert tail == slug + pathInfo;
    var k := FirstSlash(tail);
    assert tail[|slug|] == '/';
    assert forall i :: 0 <= i < |slug| ==> tail[i] == slug[i];
    assert k == |slug|;
    assert tail[..|slug|] == slug;
    assert path[|PREFIX + slug|..] == pathInfo;
    RoutersAgree(path);
  }

  datatype Handled =
    | NotFound
    | Suspended
    | Redirected(url: string)
    | Served(alias: Option<string>, pathInfo: string)

  /** Per-request selection of the tenant database. `currentDb` is the context
      variable read by `current_scope`. */
  class TenantRouting {
    var currentDb: Option<string>

    constructor ()
      ensures currentDb == None
    {
      currentDb := None;
    }

    /** `registry` maps a slug to the tenant's subscription state; the inner
        handler is represented by the alias and path it is run with. */
    method Call(path: string, registry: map<string, bool>, sessionTenant: Option<string>)
      returns (result: Handled)
      modifies this
      ensures currentDb == if result.Served? && HttpRoute(path).Mounted? then None else old(currentDb)
      ensures forall slug, info :: HttpRoute(path) == Mounted(slug, info) ==>
        result == if slug !in registry then NotFound
                  else if !registry[slug] then Suspended
                  else Served(Some(DbAlias(slug)), info)
      ensures HttpRoute(path) == NoTenant ==> result == NotFound
      ensures HttpRoute(path) == ControlPlane ==>
        result == if path == "/" && sessionTenant.Some? then Redirected(PREFIX + sessionTenant.value + "/")
                  else Served(old(currentDb), path)
    {
      if !(PREFIX <= path) {
        if path == "/" && sessionTenant.Some? {
          return Redirected(PREFIX + sessionTenant.value + "/");
        }
        return Served(currentDb, path);
      }
      var tail := path[|PREFIX|..];
      var slug := tail[..FirstSlash(tail)];
      if slug == "" || slug !in registry {
        return NotFound;
      }
      if !registry[slug] {
        return Suspended;
      }
      currentDb := Some(DbAlias(slug));
      var mount := PREFIX + slug;
      var stripped := path[|mount|..];
      result := Served(currentDb, if stripped != "" then stripped else "/");
      currentDb := None;
    }
  }
}
