/** The capability registry and the two policy decisions built on it: what a user may do through role
    assignments, and what a service account may do through its own grants. */
module Policy {
  import opened Sessions

  /** Every capability there is, sorted. */
  const REGISTRY: seq<string> := [
    "bucket:create", "bucket:delete", "bucket:edit_alias", "bucket:set_quota", "bucket:view",
    "cluster:create", "cluster:delete", "cluster:edit", "cluster:edit_layout", "cluster:test", "cluster:view_layout",
    "host:manage_drivers", "host:manage_org_caps", "host:manage_policies", "host:manage_signup_mode",
    "host:manage_users",
    "key:create", "key:delete", "key:edit_permissions", "key:view",
    "objects:delete", "objects:get", "objects:list", "objects:put", "objects:share_create", "objects:share_revoke",
    "policy:assign_role", "policy:edit_matrix", "policy:view_matrix"]

  predicate EndsWith(s: string, suffix: string) {
    |s| >= |suffix| && s[|s| - |suffix|..] == suffix
  }

  function WithPrefix(ids: seq<string>, prefix: string): seq<string> {
    if ids == [] then []
    else (if prefix <= ids[0] then [ids[0]] else []) + WithPrefix(ids[1..], prefix)
  }

  /** The registered capabilities an expression covers, in order. */
  function Expand(expr: string): seq<string> {
    if expr == "" then []
    else if expr == "*:*" then REGISTRY
    else if EndsWith(expr, ":*") then WithPrefix(REGISTRY, expr[..|expr| - 1])
    else if expr in REGISTRY then [expr]
    else []
  }

  /** Does a granted scope cover a requested one? */
  predicate ScopeMatches(granted: string, requested: string) {
    if granted == "" || requested == "" then false
    else if granted == "*" then true
    else if granted == requested then true
    else EndsWith(granted, ":*") && granted[..|granted| - 1] <= requested
  }

  /** Roles by id with their capability expressions, and assignments by user. */
  datatype PolicyState = PolicyState(roles: map<string, seq<string>>, assignments: map<string, seq<Assignment>>)

  predicate RoleGrants(p: PolicyState, a: Assignment, capability: string) {
    a.roleID in p.roles && exists expr :: expr in p.roles[a.roleID] && capability in Expand(expr)
  }

  predicate Can(p: PolicyState, userID: string, capability: string, scope: string) {
    userID != "" && capability != "" && scope != "" &&
    exists a :: a in AssignmentsFor(p.assignments, userID) && ScopeMatches(a.scope, scope)
                && RoleGrants(p, a, capability)
  }

  datatype Capability = Capability(id: string, scope: string)

  predicate CapabilityMatches(granted: string, requested: string) {
    if granted == "" || requested == "" then false
    else granted == requested || granted == "*:*" || requested in Expand(granted)
  }

  /** The decision taken on every request a service account makes. */
  predicate GrantsAllow(caps: seq<Capability>, scopes: seq<string>, revoked: bool, capability: string, scope: string) {
    && capability != "" && scope != "" && !revoked
    && (exists s :: s in scopes && ScopeMatches(s, scope))
    && (exists c :: c in caps && CapabilityMatches(c.id, capability) && ScopeMatches(c.scope, scope))
  }

  /** Covering is transitive: who covers a scope covers everything it covers. */
  lemma ScopeMatchesTransitive(a: string, b: string, c: string)
    requires ScopeMatches(a, b) && ScopeMatches(b, c)
    ensures ScopeMatches(a, c)
  {
    if a != "*" && a != b && b != c {
      var pa, pb := a[..|a| - 1], b[..|b| - 1];
      assert a[|a| - 2..] == ":*" && pa[|pa| - 1] == ':' by { assert a[|a| - 2..][0] == ':'; }
      if b != "*" {
        assert b[|b| - 1] == '*' by { assert b[|b| - 2..][1] == '*'; }
        assert pa <= pb;
      }
    }
  }

  lemma WildcardEndsInStar(expr: string)
    requires expr != "" && expr[|expr| - 1] != '*'
    ensures expr != "*:*" && !EndsWith(expr, ":*")
  {
  }

  lemma NoStarRegistered(id: string)
    requires id in REGISTRY
    ensures id != "" && id[|id| - 1] != '*'
  {
  }

  /** No registered capability is itself a wildcard, so it covers only itself. */
  lemma RegisteredIsLeaf(id: string)
    requires id in REGISTRY
    ensures id != "" && id != "*:*" && Expand(id) == [id]
  {
    NoStarRegistered(id);
    WildcardEndsInStar(id);
  }

  // ---- in plain terms -------------------------------------------------------------------------

  /** A granted scope covers a requested one: everything, itself, or all that continues its prefix. */
  ghost predicate Covers(granted: string, requested: string) {
    && granted != "" && requested != ""
    && (|| granted == "*"
        || granted == requested
        || exists p: string :: granted == p + ":*" && p + ":" <= requested)
  }

  lemma ScopeMatchesIff(granted: string, requested: string)
    ensures ScopeMatches(granted, requested) <==> Covers(granted, requested)
  {
    if EndsWith(granted, ":*") {
      var p := granted[..|granted| - 2];
      assert granted == p + ":*" && granted[..|granted| - 1] == p + ":";
    }
    forall p: string | granted == p + ":*" ensures EndsWith(granted, ":*") && granted[..|granted| - 1] == p + ":" {
      assert granted[|granted| - 2..] == ":*";
    }
  }

  /** A capability expression names a capability: all of them, a whole domain, or the one. */
  ghost predicate Includes(expr: string, id: string) {
    && id in REGISTRY
    && (|| expr == "*:*"
        || expr == id
        || exists domain: string :: expr == domain + ":*" && domain + ":" <= id)
  }

  lemma {:induction false} WithPrefixIff(ids: seq<string>, prefix: string, id: string)
    ensures id in WithPrefix(ids, prefix) <==> id in ids && prefix <= id
  {
    if ids != [] {
      WithPrefixIff(ids[1..], prefix, id);
    }
  }

  /** Ending in a colon and a star means being a domain's wildcard, and the domain is what comes before. */
  lemma DomainOf(expr: string, domain: string)
    ensures expr == domain + ":*" <==> EndsWith(expr, ":*") && domain == expr[..|expr| - 2]
  {
    if EndsWith(expr, ":*") {
      assert expr == expr[..|expr| - 2] + expr[|expr| - 2..];
    }
    assert (domain + ":*")[|domain|..] == ":*" && (domain + ":*")[..|domain|] == domain;
  }

  lemma ExpandIff(expr: string, id: string)
    ensures id in Expand(expr) <==> Includes(expr, id)
  {
    forall domain { DomainOf(expr, domain); }
    if EndsWith(expr, ":*") {
      var domain := expr[..|expr| - 2];
      assert expr == domain + ":*" && expr[..|expr| - 1] == domain + ":";
      WithPrefixIff(REGISTRY, domain + ":", id);
      if id in REGISTRY {
        NoStarRegistered(id);
        WildcardEndsInStar(id);
      }
    } else {
      ExpandLeaf(expr, id);
    }
  }

  lemma ExpandLeaf(expr: string, id: string)
    requires !EndsWith(expr, ":*")
    ensures id in Expand(expr) <==> id in REGISTRY && expr == id
  {
    if expr in REGISTRY {
      RegisteredIsLeaf(expr);
    }
  }

  /** What a user may do: some assignment of theirs covers the scope, and its role includes the capability. */
  lemma CanIff(p: PolicyState, userID: string, capability: string, scope: string)
    ensures Can(p, userID, capability, scope) <==>
      userID != "" && capability != "" && scope != "" && userID in p.assignments
      && exists a :: a in p.assignments[userID] && Covers(a.scope, scope)
                     && a.roleID in p.roles && exists expr :: expr in p.roles[a.roleID] && Includes(expr, capability)
  {
    forall a, b { ScopeMatchesIff(a, b); }
    forall expr { ExpandIff(expr, capability); }
    hide ScopeMatches, Expand, Covers, Includes;
  }

  /** What a service account may do: live, inside one of its scopes, and by one of its capabilities. */
  lemma GrantsAllowIff(caps: seq<Capability>, scopes: seq<string>, revoked: bool, capability: string, scope: string)
    ensures GrantsAllow(caps, scopes, revoked, capability, scope) <==>
      capability != "" && scope != "" && !revoked
      && (exists s :: s in scopes && Covers(s, scope))
      && (exists c :: c in caps && Covers(c.scope, scope)
                      && (c.id == capability || c.id == "*:*" || Includes(c.id, capability)))
  {
    forall a, b { ScopeMatchesIff(a, b); }
    forall expr { ExpandIff(expr, capability); }
    hide ScopeMatches, Expand, Covers;
    forall c | c in caps
      ensures CapabilityMatches(c.id, capability) && capability != ""
              ==> c.id == capability || c.id == "*:*" || Includes(c.id, capability)
    {
    }
    assert forall c :: c in caps && capability != "" && Includes(c.id, capability) ==> c.id != "";
  }
}
