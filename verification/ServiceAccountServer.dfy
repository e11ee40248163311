/** The service-account handlers and the store they write to, as they run: validation loops with early
    return, the nested minter-authority loop, the scan for a taken name, and the writes. */
module ServiceAccountServer {
  import opened Options
  import opened Scopes
  import opened Policy
  import opened ServiceAccounts

  method ValidateServiceAccountScopes(scopes: seq<string>) returns (ok: bool)
    ensures ok <==> ValidScopes(scopes)
  {
    for i := 0 to |scopes|
      invariant ValidScopes(scopes[..i])
    {
      var err := ValidateServiceAccountScope(scopes[i]);
      if err.Some? { return false; }
    }
    assert scopes[..|scopes|] == scopes;
    return true;
  }

  method ValidateServiceAccountCapabilities(caps: seq<Capability>) returns (ok: bool)
    ensures ok <==> ValidCapabilities(caps)
  {
    hide ValidScope;
    for i := 0 to |caps|
      invariant ValidCapabilities(caps[..i])
    {
      if caps[i].id !in REGISTRY { return false; }
      var err := ValidateServiceAccountScope(caps[i].scope);
      if err.Some? { return false; }
    }
    assert caps[..|caps|] == caps;
    return true;
  }

  /** `leaf` of caps[i] is the first thing the minter lacks: every leaf before it, of this and of the
      earlier capabilities, is held. */
  ghost predicate FirstLacking(p: PolicyState, userID: string, caps: seq<Capability>, i: nat, j: nat)
    requires i < |caps| && j < |Leaves(caps[i].id)|
  {
    && HeldBy(p, userID, caps[..i])
    && (forall k :: 0 <= k < j ==> Can(p, userID, Leaves(caps[i].id)[k], caps[i].scope))
    && !Can(p, userID, Leaves(caps[i].id)[j], caps[i].scope)
  }

  method RequireMinterAuthority(p: PolicyState, userID: string, caps: seq<Capability>)
    returns (capID: string, scope: string, ok: bool)
    ensures ok <==> HeldBy(p, userID, caps)
    ensures ok ==> capID == "" && scope == ""
    ensures !ok ==> exists i, j :: 0 <= i < |caps| && 0 <= j < |Leaves(caps[i].id)|
                                   && FirstLacking(p, userID, caps, i, j)
                                   && capID == Leaves(caps[i].id)[j] && scope == caps[i].scope
  {
    hide Can, Expand;
    for i := 0 to |caps|
      invariant HeldBy(p, userID, caps[..i])
    {
      var c := caps[i];
      var leaves := Expand(c.id);
      if c.id != "" && |leaves| == 0 {
        leaves := [c.id];
      }
      for j := 0 to |leaves|
        invariant forall k :: 0 <= k < j ==> Can(p, userID, leaves[k], c.scope)
      {
        if !Can(p, userID, leaves[j], c.scope) {
          assert leaves[j] in Leaves(c.id) && FirstLacking(p, userID, caps, i, j);
          return leaves[j], c.scope, false;
        }
      }
      assert caps[..i + 1] == caps[..i] + [c];
    }
    assert caps[..|caps|] == caps;
    return "", "", true;
  }

  /** The store's scan for a live row of the same owner and name. */
  method FindTaken(rows: map<string, ServiceAccount>, owner: string, name: string, except: Option<string>)
    returns (taken: bool)
    ensures taken <==> NameTaken(rows, owner, name, except)
  {
    var todo := rows.Keys;
    while todo != {}
      invariant todo <= rows.Keys
      invariant !NameTaken(map id | id in rows.Keys - todo :: rows[id], owner, name, except)
    {
      var id :| id in todo;
      if Some(id) != except && rows[id].owner == owner && rows[id].name == name && !rows[id].revoked {
        return true;
      }
      todo := todo - {id};
    }
    assert (map id | id in rows.Keys - todo :: rows[id]) == rows;
    return false;
  }

  class Server {
    var policy: PolicyState
    var rows: map<string, ServiceAccount>

    ghost function View(): World
      reads this
    {
      World(policy, rows)
    }

    constructor (p: PolicyState)
      ensures View() == World(p, map[])
    {
      policy, rows := p, map[];
    }

    method SetPolicy(p: PolicyState)
      modifies this
      ensures View() == Step(old(View()), Event.SetPolicy(p)).0
    {
      policy := p;
    }

    method RequireCapability(caller: Caller) returns (owner: Option<string>)
      ensures owner == Authorized(View(), caller)
      ensures owner.Some? && caller.Human? ==>
        owner.value == caller.userID && caller.adminMode && Can(policy, owner.value, "host:manage_users", "host:*")
      ensures owner.Some? && caller.Machine? ==>
        caller.id in rows && owner.value == rows[caller.id].owner && !rows[caller.id].revoked
    {
      match caller {
        case Human(userID, adminMode) =>
          if !Can(policy, userID, "host:manage_users", "host:*") { return None; }
          if !adminMode { return None; }
          return Some(userID);
        case Machine(id) =>
          if id !in rows { return None; }
          var sa := rows[id];
          if !GrantsAllow(sa.capabilities, sa.scopes, sa.revoked, "host:manage_users", "host:*") { return None; }
          return Some(sa.owner);
      }
    }

    method CreateServiceAccountHandler(caller: Caller, newID: string, name: string,
        caps: seq<Capability>, scopes: seq<string>, expiryOk: bool, saveOk: bool)
      returns (a: Answer)
      modifies this
      ensures (View(), a) == Step(old(View()), Create(caller, newID, name, caps, scopes, expiryOk, saveOk))
    {
      hide Authorized, HeldBy, ValidCapabilities, ValidScopes, ValidName, NameTaken;
      var owner := RequireCapability(caller);
      if owner.None? { return Refused; }
      var ok := ValidateServiceAccountCapabilities(caps);
      if !ok { return InvalidCapability; }
      ok := ValidateServiceAccountScopes(scopes);
      if !ok { return InvalidScope; }
      var _, _, held := RequireMinterAuthority(policy, owner.value, caps);
      if !held { return InsufficientPrivilege; }
      if !ValidName(name) { return InvalidName; }
      if !expiryOk { return StoreError; }
      var taken := FindTaken(rows, owner.value, name, None);
      if taken { return DuplicateName; }
      var before := rows;
      rows := rows[newID := ServiceAccount(owner.value, name, caps, scopes, false)];
      if !saveOk {
        rows := before;
        return StoreError;
      }
      return Done;
    }

    method UpdateServiceAccountHandler(caller: Caller, id: string, newName: string,
        newCaps: Option<seq<Capability>>, newScopes: Option<seq<string>>, expiryOk: bool, saveOk: bool)
      returns (a: Answer)
      modifies this
      ensures (View(), a) == Step(old(View()), Update(caller, id, newName, newCaps, newScopes, expiryOk, saveOk))
    {
      hide Authorized, HeldBy, ValidCapabilities, ValidScopes, ValidName, NameTaken;
      var owner := RequireCapability(caller);
      if owner.None? { return Refused; }
      if id !in rows || rows[id].owner != owner.value { return NotFound; }
      if newCaps.Some? {
        var ok := ValidateServiceAccountCapabilities(newCaps.value);
        if !ok { return InvalidCapability; }
      }
      if newScopes.Some? {
        var ok := ValidateServiceAccountScopes(newScopes.value);
        if !ok { return InvalidScope; }
      }
      if newCaps.Some? {
        var _, _, held := RequireMinterAuthority(policy, owner.value, newCaps.value);
        if !held { return InsufficientPrivilege; }
      }
      var cur := rows[id];
      if newName != "" {
        if !ValidName(newName) { return InvalidName; }
        if newName != cur.name {
          var taken := FindTaken(rows, cur.owner, newName, Some(id));
          if taken { return DuplicateName; }
          cur := cur.(name := newName);
        }
      }
      if newCaps.Some? { cur := cur.(capabilities := newCaps.value); }
      if newScopes.Some? { cur := cur.(scopes := newScopes.value); }
      if !expiryOk { return StoreError; }
      var before := rows;
      rows := rows[id := cur];
      if !saveOk {
        rows := before;
        return StoreError;
      }
      return Done;
    }

    method DeleteServiceAccountHandler(caller: Caller, id: string, saveOk: bool) returns (a: Answer)
      modifies this
      ensures (View(), a) == Step(old(View()), Delete(caller, id, saveOk))
    {
      hide Authorized, HeldBy, ValidCapabilities, ValidScopes, ValidName, NameTaken;
      var owner := RequireCapability(caller);
      if owner.None? { return Refused; }
      if id !in rows || rows[id].owner != owner.value { return NotFound; }
      if rows[id].revoked { return Done; }
      rows := rows[id := rows[id].(revoked := true)];
      if !saveOk { return StoreError; }
      return Done;
    }
  }

  /** Hands one request to its handler. */
  method Dispatch(s: Server, e: Event)
    modifies s
    ensures s.View() == Step(old(s.View()), e).0
  {
    match e {
      case Create(caller, newID, name, caps, scopes, expiryOk, saveOk) =>
        var _ := s.CreateServiceAccountHandler(caller, newID, name, caps, scopes, expiryOk, saveOk);
      case Update(caller, id, newName, newCaps, newScopes, expiryOk, saveOk) =>
        var _ := s.UpdateServiceAccountHandler(caller, id, newName, newCaps, newScopes, expiryOk, saveOk);
      case Delete(caller, id, saveOk) =>
        var _ := s.DeleteServiceAccountHandler(caller, id, saveOk);
      case SetPolicy(p) =>
        s.SetPolicy(p);
    }
  }

  /** A server that has handled any series of requests: each row's capabilities go back to one checked
      write by its owner, and live names are unique. */
  method Serve(p0: PolicyState, run: seq<Event>) returns (s: Server)
    requires FreshIDs(p0, run)
    ensures fresh(s) && s.View() == WorldAt(p0, run, |run|)
    ensures forall id :: id in s.rows ==>
      exists i :: 0 <= i < |run| && WrittenAt(p0, run, i, id, s.rows[id].owner, s.rows[id].capabilities)
    ensures NamesUnique(s.rows)
  {
    hide Step, Writes, NamesUnique;
    s := new Server(p0);
    for n := 0 to |run|
      invariant fresh(s) && s.View() == WorldAt(p0, run, n)
    {
      Dispatch(s, run[n]);
    }
    LiveNamesUnique(p0, run, |run|);
    forall id | id in s.rows
      ensures exists i :: 0 <= i < |run| && WrittenAt(p0, run, i, id, s.rows[id].owner, s.rows[id].capabilities)
    {
      var i := CapabilitiesWereHeld(p0, run, |run|, id);
    }
  }
}
