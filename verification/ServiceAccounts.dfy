/** Service accounts: creating and updating them under the minter's authority, and what every run of
    such requests and of policy changes guarantees about the grants they hold. */
module ServiceAccounts {
  import opened Options
  import Sessions
  import opened Scopes
  import opened Policy

  datatype ServiceAccount = ServiceAccount(
    owner: string, name: string, capabilities: seq<Capability>, scopes: seq<string>, revoked: bool)

  datatype World = World(policy: PolicyState, rows: map<string, ServiceAccount>)

  /** Who calls: a cookie session with its effective mode, or a service account's bearer token. */
  datatype Caller = Human(userID: string, adminMode: bool) | Machine(id: string)

  /** `expiryOk` says that the expiry, if any, lies in the future, `saveOk` that the store's file can be
      written. None in an update leaves the field alone. */
  datatype Event =
    | Create(caller: Caller, newID: string, name: string, caps: seq<Capability>, scopes: seq<string>,
             expiryOk: bool, saveOk: bool)
    | Update(caller: Caller, id: string, newName: string,
             newCaps: Option<seq<Capability>>, newScopes: Option<seq<string>>, expiryOk: bool, saveOk: bool)
    | Delete(caller: Caller, id: string, saveOk: bool)
    | SetPolicy(policy: PolicyState)

  datatype Answer =
    | Done
    | Refused               // the capability gate
    | NotFound
    | InvalidCapability
    | InvalidScope
    | InsufficientPrivilege
    | InvalidName
    | DuplicateName
    | StoreError

  // ---- checks ---------------------------------------------------------------------------

  ghost predicate ValidCapabilities(caps: seq<Capability>) {
    forall c :: c in caps ==> c.id in REGISTRY && ValidScope(c.scope)
  }

  ghost predicate ValidScopes(scopes: seq<string>) {
    forall s :: s in scopes ==> ValidScope(s)
  }

  /** The leaves a capability stands for; an unregistered literal stands for itself. */
  function Leaves(id: string): seq<string> {
    var leaves := Expand(id);
    if id != "" && leaves == [] then [id] else leaves
  }

  /** The minter holds every leaf of every capability at its scope. */
  ghost predicate HeldBy(p: PolicyState, userID: string, caps: seq<Capability>) {
    forall c, leaf :: c in caps && leaf in Leaves(c.id) ==> Can(p, userID, leaf, c.scope)
  }

  predicate NameChar(ch: char) {
    'A' <= ch <= 'Z' || 'a' <= ch <= 'z' || '0' <= ch <= '9' || ch == '_' || ch == '-'
  }

  predicate ValidName(name: string) {
    3 <= |name| <= 64 && forall i :: 0 <= i < |name| ==> NameChar(name[i])
  }

  /** Another live account of the owner has the name. */
  predicate NameTaken(rows: map<string, ServiceAccount>, owner: string, name: string, except: Option<string>) {
    exists id :: id in rows && Some(id) != except && rows[id].owner == owner && rows[id].name == name
                 && !rows[id].revoked
  }

  /** The gate on host:manage_users @ host:*; a machine acts for its owner. */
  function Authorized(w: World, caller: Caller): Option<string> {
    match caller
    case Human(userID, adminMode) =>
      if Can(w.policy, userID, "host:manage_users", "host:*") && adminMode then Some(userID) else None
    case Machine(id) =>
      if id in w.rows
         && GrantsAllow(w.rows[id].capabilities, w.rows[id].scopes, w.rows[id].revoked, "host:manage_users", "host:*")
      then Some(w.rows[id].owner) else None
  }

  // ---- one request --------------------------------------------------------------------------

  ghost function CreateAnswer(w: World, owner: string, e: Event): Answer
    requires e.Create?
  {
    if !ValidCapabilities(e.caps) then InvalidCapability
    else if !ValidScopes(e.scopes) then InvalidScope
    else if !HeldBy(w.policy, owner, e.caps) then InsufficientPrivilege
    else if !ValidName(e.name) then InvalidName
    else if !e.expiryOk then StoreError
    else if NameTaken(w.rows, owner, e.name, None) then DuplicateName
    else if !e.saveOk then StoreError
    else Done
  }

  ghost function UpdateAnswer(w: World, owner: string, e: Event): Answer
    requires e.Update?
  {
    if e.id !in w.rows || w.rows[e.id].owner != owner then NotFound
    else if e.newCaps.Some? && !ValidCapabilities(e.newCaps.value) then InvalidCapability
    else if e.newScopes.Some? && !ValidScopes(e.newScopes.value) then InvalidScope
    else if e.newCaps.Some? && !HeldBy(w.policy, owner, e.newCaps.value) then InsufficientPrivilege
    else if e.newName != "" && !ValidName(e.newName) then InvalidName
    else if e.newName != "" && e.newName != w.rows[e.id].name && NameTaken(w.rows, owner, e.newName, Some(e.id))
    then DuplicateName
    else if !e.expiryOk || !e.saveOk then StoreError
    else Done
  }

  function Patched(
    sa: ServiceAccount, newName: string, newCaps: Option<seq<Capability>>, newScopes: Option<seq<string>>)
    : ServiceAccount
  {
    sa.(name := if newName != "" then newName else sa.name,
        capabilities := if newCaps.Some? then newCaps.value else sa.capabilities,
        scopes := if newScopes.Some? then newScopes.value else sa.scopes)
  }

  ghost function Step(w: World, e: Event): (World, Answer) {
    if e.SetPolicy? then (w.(policy := e.policy), Done)
    else
      var owner := Authorized(w, e.caller);
      if owner.None? then (w, Refused)
      else match e
        case Create(_, newID, name, caps, scopes, _, _) =>
          var a := CreateAnswer(w, owner.value, e);
          var sa := ServiceAccount(owner.value, name, caps, scopes, false);
          (if a == Done then w.(rows := w.rows[newID := sa]) else w, a)
        case Update(_, id, newName, newCaps, newScopes, _, _) =>
          var a := UpdateAnswer(w, owner.value, e);
          (if a == Done then w.(rows := w.rows[id := Patched(w.rows[id], newName, newCaps, newScopes)]) else w, a)
        case Delete(_, id, saveOk) =>
          if id !in w.rows || w.rows[id].owner != owner.value then (w, NotFound)
          else if w.rows[id].revoked then (w, Done)
          else (w.(rows := w.rows[id := w.rows[id].(revoked := true)]), if saveOk then Done else StoreError)
  }

  // ---- the bound on one grant ---------------------------------------------------------------------

  /** A grant checked at write time never allows more than its minter could do at that moment: whatever
      request the account's capabilities cover, the minter's own role assignments covered. */
  lemma GrantWithinMinter(
    p: PolicyState, userID: string, caps: seq<Capability>, scopes: seq<string>, capability: string, scope: string)
    requires ValidCapabilities(caps) && HeldBy(p, userID, caps)
    requires GrantsAllow(caps, scopes, false, capability, scope)
    ensures Can(p, userID, capability, scope)
  {
    var c :| c in caps && CapabilityMatches(c.id, capability) && ScopeMatches(c.scope, scope);
    RegisteredIsLeaf(c.id);
    assert capability == c.id && capability in Leaves(c.id);
    var a :| a in Sessions.AssignmentsFor(p.assignments, userID) && ScopeMatches(a.scope, c.scope)
             && RoleGrants(p, a, capability);
    ScopeMatchesTransitive(a.scope, c.scope, scope);
  }

  // ---- runs ---------------------------------------------------------------------------------------------

  /** The world after n events; identifiers are minted fresh. */
  ghost function WorldAt(p0: PolicyState, run: seq<Event>, n: nat): World
    requires n <= |run|
  {
    if n == 0 then World(p0, map[]) else Step(WorldAt(p0, run, n - 1), run[n - 1]).0
  }

  ghost predicate FreshIDs(p0: PolicyState, run: seq<Event>) {
    forall i :: 0 <= i < |run| && run[i].Create? ==> run[i].newID !in WorldAt(p0, run, i).rows
  }

  /** Event e gave account `id` the capabilities `caps`, all of which `owner` held at that moment. */
  ghost predicate Writes(w: World, e: Event, id: string, owner: string, caps: seq<Capability>) {
    && ((e.Create? && e.newID == id && e.caps == caps)
        || (e.Update? && e.id == id && e.newCaps == Some(caps)))
    && Step(w, e).1 == Done
    && ValidCapabilities(caps)
    && HeldBy(w.policy, owner, caps)
  }

  lemma StepWritesOrKeeps(w: World, e: Event, id: string)
    requires id in Step(w, e).0.rows && (e.Create? ==> e.newID !in w.rows)
    ensures var sa := Step(w, e).0.rows[id];
      || Writes(w, e, id, sa.owner, sa.capabilities)
      || (id in w.rows && sa.capabilities == w.rows[id].capabilities && sa.owner == w.rows[id].owner)
  {
    hide Authorized, HeldBy, ValidCapabilities, ValidScopes, ValidName, NameTaken;
  }

  ghost predicate WrittenAt(
    p0: PolicyState, run: seq<Event>, i: nat, id: string, owner: string, caps: seq<Capability>)
  {
    i < |run| && Writes(WorldAt(p0, run, i), run[i], id, owner, caps)
  }

  /** Event m did not touch the capabilities of `id`. */
  ghost predicate LeavesCapabilities(p0: PolicyState, run: seq<Event>, m: nat, id: string)
    requires m < |run|
  {
    var before, after := WorldAt(p0, run, m).rows, WorldAt(p0, run, m + 1).rows;
    && id in before && id in after
    && after[id].capabilities == before[id].capabilities && after[id].owner == before[id].owner
  }

  /** In every reachable state each account's capabilities go back to one write by its owner, who held
      all of them then; since that write nothing has changed them, role changes and capability-less
      updates included. */
  lemma {:induction false} CapabilitiesWereHeld(p0: PolicyState, run: seq<Event>, n: nat, id: string) returns (i: nat)
    requires n <= |run| && FreshIDs(p0, run) && id in WorldAt(p0, run, n).rows
    ensures var sa := WorldAt(p0, run, n).rows[id]; i < n && WrittenAt(p0, run, i, id, sa.owner, sa.capabilities)
    ensures forall m :: i < m < n ==> LeavesCapabilities(p0, run, m, id)
  {
    hide Writes, Step;
    var prev, e := WorldAt(p0, run, n - 1), run[n - 1];
    var sa := Step(prev, e).0.rows[id];
    StepWritesOrKeeps(prev, e, id);
    if Writes(prev, e, id, sa.owner, sa.capabilities) {
      i := n - 1;
    } else {
      i := CapabilitiesWereHeld(p0, run, n - 1, id);
      assert LeavesCapabilities(p0, run, n - 1, id);
    }
  }

  /** So no service account can ever do what its owner could not do at some earlier moment: the moment
      its capabilities were last written. */
  lemma NeverExceedsOwner(p0: PolicyState, run: seq<Event>, n: nat, id: string, capability: string, scope: string)
    requires n <= |run| && FreshIDs(p0, run) && id in WorldAt(p0, run, n).rows
    requires var sa := WorldAt(p0, run, n).rows[id];
      GrantsAllow(sa.capabilities, sa.scopes, sa.revoked, capability, scope)
    ensures var sa := WorldAt(p0, run, n).rows[id];
      exists i :: 0 <= i < n && WrittenAt(p0, run, i, id, sa.owner, sa.capabilities)
                  && Can(WorldAt(p0, run, i).policy, sa.owner, capability, scope)
  {
    var sa := WorldAt(p0, run, n).rows[id];
    var i := CapabilitiesWereHeld(p0, run, n, id);
    GrantWithinMinter(WorldAt(p0, run, i).policy, sa.owner, sa.capabilities, sa.scopes, capability, scope);
  }

  lemma StepKeepsRow(w: World, e: Event, id: string)
    requires id in w.rows && (e.Create? ==> e.newID !in w.rows)
    ensures var rows := Step(w, e).0.rows;
      id in rows && rows[id].owner == w.rows[id].owner && (w.rows[id].revoked ==> rows[id].revoked)
  {
    hide Authorized, CreateAnswer, UpdateAnswer;
  }

  ghost predicate AllowsNothing(sa: ServiceAccount) {
    forall capability, scope :: !GrantsAllow(sa.capabilities, sa.scopes, sa.revoked, capability, scope)
  }

  /** An account is never removed or handed over, and once revoked it stays so and allows nothing,
      whatever is later written to it. */
  lemma {:induction false} RevokedForGood(p0: PolicyState, run: seq<Event>, m: nat, n: nat, id: string)
    requires m <= n <= |run| && FreshIDs(p0, run) && id in WorldAt(p0, run, m).rows
    ensures var before, after := WorldAt(p0, run, m).rows, WorldAt(p0, run, n).rows;
      && id in after && after[id].owner == before[id].owner
      && (before[id].revoked ==> after[id].revoked)
      && (before[id].revoked ==> AllowsNothing(after[id]))
  {
    hide Step;
    if m < n {
      RevokedForGood(p0, run, m, n - 1, id);
      StepKeepsRow(WorldAt(p0, run, n - 1), run[n - 1], id);
    }
  }

  /** Whom a request acts for and by what right: a person in admin mode who may manage users at this
      moment, or a live account whose owner might when its capabilities were written. */
  ghost predicate ActsByRight(p0: PolicyState, run: seq<Event>, n: nat, caller: Caller, owner: string)
    requires n <= |run|
  {
    var w := WorldAt(p0, run, n);
    match caller
    case Human(userID, adminMode) =>
      owner == userID && adminMode && Can(w.policy, owner, "host:manage_users", "host:*")
    case Machine(id) =>
      && id in w.rows && owner == w.rows[id].owner && !w.rows[id].revoked
      && exists i :: 0 <= i < n && WrittenAt(p0, run, i, id, owner, w.rows[id].capabilities)
                     && Can(WorldAt(p0, run, i).policy, owner, "host:manage_users", "host:*")
  }

  /** In no run does the gate let a request through without that right. */
  lemma GateKeepsRight(p0: PolicyState, run: seq<Event>, n: nat, caller: Caller)
    requires n <= |run| && FreshIDs(p0, run) && Authorized(WorldAt(p0, run, n), caller).Some?
    ensures ActsByRight(p0, run, n, caller, Authorized(WorldAt(p0, run, n), caller).value)
  {
    if caller.Machine? {
      NeverExceedsOwner(p0, run, n, caller.id, "host:manage_users", "host:*");
    }
  }

  ghost predicate NamesUnique(rows: map<string, ServiceAccount>) {
    forall a, b :: a in rows && b in rows && a != b && !rows[a].revoked && !rows[b].revoked
                   && rows[a].owner == rows[b].owner
      ==> rows[a].name != rows[b].name
  }

  lemma StepKeepsNames(w: World, e: Event)
    requires NamesUnique(w.rows) && (e.Create? ==> e.newID !in w.rows)
    ensures NamesUnique(Step(w, e).0.rows)
  {
    hide Authorized, HeldBy, ValidCapabilities, ValidScopes, ValidName;
  }

  /** Two live accounts of one owner never share a name. */
  lemma {:induction false} LiveNamesUnique(p0: PolicyState, run: seq<Event>, n: nat)
    requires n <= |run| && FreshIDs(p0, run)
    ensures NamesUnique(WorldAt(p0, run, n).rows)
  {
    if n > 0 {
      LiveNamesUnique(p0, run, n - 1);
      StepKeepsNames(WorldAt(p0, run, n - 1), run[n - 1]);
    }
  }
}
