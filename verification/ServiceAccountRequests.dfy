/** What every service-account request answers and changes, in plain terms. */
module ServiceAccountRequests {
  import opened Options
  import opened Scopes
  import opened Policy
  import opened ServiceAccounts

  /** Three to sixty-four letters, digits, underscores and hyphens. */
  ghost predicate GoodName(name: string) {
    && 3 <= |name| <= 64
    && forall ch :: ch in name ==>
         'a' <= ch <= 'z' || 'A' <= ch <= 'Z' || '0' <= ch <= '9' || ch in {'_', '-'}
  }

  lemma NameIff(name: string)
    ensures ValidName(name) <==> GoodName(name)
  {
    assert forall i :: 0 <= i < |name| ==> name[i] in name;
  }

  /** The leaves of an expression: the capabilities it includes, or itself if it includes none. */
  lemma LeavesIff(id: string, leaf: string)
    ensures leaf in Leaves(id) <==> Includes(id, leaf) || (id != "" && leaf == id && forall x :: !Includes(id, x))
  {
    forall x { ExpandIff(id, x); }
    hide Expand, Includes;
    if Expand(id) != [] { assert Expand(id)[0] in Expand(id); }
  }

  /** Capabilities that `owner` may hand out: registered, at valid scopes, and held by the owner there. */
  ghost predicate Grantable(p: PolicyState, owner: string, caps: seq<Capability>) {
    forall c :: c in caps ==> c.id in REGISTRY && ValidScope(c.scope) && Can(p, owner, c.id, c.scope)
  }

  lemma GrantableIff(p: PolicyState, owner: string, caps: seq<Capability>)
    ensures Grantable(p, owner, caps) <==> ValidCapabilities(caps) && HeldBy(p, owner, caps)
  {
    forall c | c in caps && c.id in REGISTRY ensures Leaves(c.id) == [c.id] {
      RegisteredIsLeaf(c.id);
    }
    hide Can, Leaves, ValidScope, Expand;
    forall c | c in caps && ValidCapabilities(caps) ensures c.id in Leaves(c.id) {}
  }

  /** The request passes the gate as `owner`: a person in admin mode who may manage users, or an account whose
      own grants allow it to, for its owner. */
  ghost predicate Passes(w: World, caller: Caller, owner: string) {
    match caller
    case Human(userID, adminMode) =>
      owner == userID && adminMode && Can(w.policy, userID, "host:manage_users", "host:*")
    case Machine(id) =>
      && id in w.rows && owner == w.rows[id].owner
      && GrantsAllow(w.rows[id].capabilities, w.rows[id].scopes, w.rows[id].revoked, "host:manage_users", "host:*")
  }

  lemma AuthorizedIff(w: World, caller: Caller, owner: string)
    ensures Authorized(w, caller) == Some(owner) <==> Passes(w, caller, owner)
  {
    hide Can, GrantsAllow;
  }

  ghost function AnswerAt(p0: PolicyState, run: seq<Event>, i: nat): Answer
    requires i < |run|
  {
    Step(WorldAt(p0, run, i), run[i]).1
  }

  /** No other live account of the owner has the name. */
  ghost predicate NameFree(rows: map<string, ServiceAccount>, owner: string, name: string) {
    forall id :: id in rows && rows[id].owner == owner && rows[id].name == name ==> rows[id].revoked
  }

  ghost predicate Creatable(w: World, owner: string, e: Event)
    requires e.Create?
  {
    && Grantable(w.policy, owner, e.caps) && (forall s :: s in e.scopes ==> ValidScope(s))
    && GoodName(e.name) && NameFree(w.rows, owner, e.name) && e.expiryOk && e.saveOk
  }

  /** A create succeeds exactly for grants its owner holds under a good free name, and adds that one live row;
      otherwise nothing changes. */
  lemma CreateIff(p0: PolicyState, run: seq<Event>, i: nat, owner: string)
    requires i < |run| && run[i].Create? && Passes(WorldAt(p0, run, i), run[i].caller, owner)
    ensures var before, after, e := WorldAt(p0, run, i), WorldAt(p0, run, i + 1), run[i];
      && (AnswerAt(p0, run, i) == Done <==> Creatable(before, owner, e))
      && after.policy == before.policy
      && after.rows == if AnswerAt(p0, run, i) == Done
                       then before.rows[e.newID := ServiceAccount(owner, e.name, e.caps, e.scopes, false)]
                       else before.rows
  {
    var w, e := WorldAt(p0, run, i), run[i];
    AuthorizedIff(w, e.caller, owner);
    GrantableIff(w.policy, owner, e.caps);
    NameIff(e.name);
    hide Authorized, Passes, Grantable, ValidCapabilities, HeldBy, ValidName, GoodName, ValidScope;
  }

  ghost predicate RegisteredAtValidScope(c: Capability) {
    c.id in REGISTRY && ValidScope(c.scope)
  }

  /** Why a create is refused, check by check. */
  lemma CreateRefusals(p0: PolicyState, run: seq<Event>, i: nat, owner: string)
    requires i < |run| && run[i].Create? && Passes(WorldAt(p0, run, i), run[i].caller, owner)
    ensures var w, e, a := WorldAt(p0, run, i), run[i], AnswerAt(p0, run, i);
      var capsOk := forall c :: c in e.caps ==> RegisteredAtValidScope(c);
      var scopesOk := forall s :: s in e.scopes ==> ValidScope(s);
      var granted := capsOk && scopesOk && Grantable(w.policy, owner, e.caps);
      && (a == InvalidCapability <==> !capsOk)
      && (a == InvalidScope <==> capsOk && !scopesOk)
      && (a == InsufficientPrivilege <==> capsOk && scopesOk && !granted)
      && (a == InvalidName <==> granted && !GoodName(e.name))
      && (a == DuplicateName <==> granted && GoodName(e.name) && e.expiryOk && !NameFree(w.rows, owner, e.name))
      && a !in {Refused, NotFound}
  {
    var w, e := WorldAt(p0, run, i), run[i];
    AuthorizedIff(w, e.caller, owner);
    GrantableIff(w.policy, owner, e.caps);
    NameIff(e.name);
    hide Authorized, Passes, Grantable, HeldBy, ValidName, GoodName, ValidScope;
  }

  /** Why an update is refused, check by check. */
  lemma UpdateRefusals(p0: PolicyState, run: seq<Event>, i: nat, owner: string)
    requires i < |run| && run[i].Update? && Passes(WorldAt(p0, run, i), run[i].caller, owner)
    ensures var w, e, a := WorldAt(p0, run, i), run[i], AnswerAt(p0, run, i);
      var own := e.id in w.rows && w.rows[e.id].owner == owner;
      var capsOk := e.newCaps.Some? ==> forall c :: c in e.newCaps.value ==> RegisteredAtValidScope(c);
      var scopesOk := e.newScopes.Some? ==> forall s :: s in e.newScopes.value ==> ValidScope(s);
      && (a == NotFound <==> !own)
      && (a == InvalidCapability <==> own && !capsOk)
      && (a == InvalidScope <==> own && capsOk && !scopesOk)
      && (a == InsufficientPrivilege <==>
            own && capsOk && scopesOk && e.newCaps.Some? && !Grantable(w.policy, owner, e.newCaps.value))
      && a != Refused
  {
    var w, e := WorldAt(p0, run, i), run[i];
    AuthorizedIff(w, e.caller, owner);
    if e.newCaps.Some? { GrantableIff(w.policy, owner, e.newCaps.value); }
    hide Authorized, Passes, Grantable, HeldBy, ValidName, ValidScope, NameTaken;
  }

  ghost predicate Patchable(w: World, owner: string, e: Event)
    requires e.Update?
  {
    && e.id in w.rows && w.rows[e.id].owner == owner
    && (e.newCaps.Some? ==> Grantable(w.policy, owner, e.newCaps.value))
    && (e.newScopes.Some? ==> forall s :: s in e.newScopes.value ==> ValidScope(s))
    && (e.newName != "" ==> GoodName(e.newName))
    && (e.newName != "" && e.newName != w.rows[e.id].name ==> NameFree(w.rows, owner, e.newName))
    && e.expiryOk && e.saveOk
  }

  /** The patched row: each field as submitted, or as it was. */
  ghost predicate PatchedRow(after: ServiceAccount, before: ServiceAccount, e: Event)
    requires e.Update?
  {
    && after.owner == before.owner && after.revoked == before.revoked
    && (e.newName == "" ==> after.name == before.name) && (e.newName != "" ==> after.name == e.newName)
    && (e.newCaps.None? ==> after.capabilities == before.capabilities)
    && (e.newCaps.Some? ==> after.capabilities == e.newCaps.value)
    && (e.newScopes.None? ==> after.scopes == before.scopes)
    && (e.newScopes.Some? ==> after.scopes == e.newScopes.value)
  }

  /** An update succeeds exactly for an own row, grants its owner holds and a good free name; it changes what
      was submitted of that row, and otherwise nothing. */
  lemma UpdateIff(p0: PolicyState, run: seq<Event>, i: nat, owner: string)
    requires i < |run| && run[i].Update? && Passes(WorldAt(p0, run, i), run[i].caller, owner)
    ensures var before, after, e := WorldAt(p0, run, i), WorldAt(p0, run, i + 1), run[i];
      && (AnswerAt(p0, run, i) == Done <==> Patchable(before, owner, e))
      && after.policy == before.policy && after.rows.Keys == before.rows.Keys
      && (forall k :: k in before.rows && k != e.id ==> after.rows[k] == before.rows[k])
      && (AnswerAt(p0, run, i) == Done ==> PatchedRow(after.rows[e.id], before.rows[e.id], e))
      && (AnswerAt(p0, run, i) != Done ==> after == before)
  {
    var w, e := WorldAt(p0, run, i), run[i];
    AuthorizedIff(w, e.caller, owner);
    if e.newCaps.Some? { GrantableIff(w.policy, owner, e.newCaps.value); }
    NameIff(e.newName);
    hide Authorized, Passes, Grantable, ValidCapabilities, HeldBy, ValidName, GoodName, ValidScope;
  }

  lemma RefusedWhen(w: World, e: Event)
    requires !e.SetPolicy?
    ensures Step(w, e).1 == Refused <==> Authorized(w, e.caller).None?
    ensures Step(w, e).1 == Refused ==> Step(w, e).0 == w
  {
    hide Authorized, ValidCapabilities, HeldBy, ValidName, ValidScopes, NameTaken;
  }

  /** Who is not let through changes nothing. */
  lemma RefusedIff(p0: PolicyState, run: seq<Event>, i: nat)
    requires i < |run| && !run[i].SetPolicy?
    ensures AnswerAt(p0, run, i) == Refused <==> forall owner :: !Passes(WorldAt(p0, run, i), run[i].caller, owner)
    ensures AnswerAt(p0, run, i) == Refused ==> WorldAt(p0, run, i + 1) == WorldAt(p0, run, i)
  {
    var w, e := WorldAt(p0, run, i), run[i];
    RefusedWhen(w, e);
    hide Step, Authorized, Passes;
    var owner := Authorized(w, e.caller);
    if owner.Some? {
      AuthorizedIff(w, e.caller, owner.value);
      assert Passes(WorldAt(p0, run, i), run[i].caller, owner.value);
    } else {
      forall o ensures !Passes(w, e.caller, o) { AuthorizedIff(w, e.caller, o); }
    }
  }

  /** The owner's delete, at the moment it happens: the row is revoked, whether the save succeeds or not, and
      every other row stays; anyone else's delete, or of an unknown id, changes nothing. */
  lemma DeleteNow(p0: PolicyState, run: seq<Event>, i: nat)
    requires i < |run| && run[i].Delete?
    ensures var before, after, e := WorldAt(p0, run, i), WorldAt(p0, run, i + 1), run[i];
      var own := e.id in before.rows && Passes(before, e.caller, before.rows[e.id].owner);
      && (own ==> e.id in after.rows && after.rows[e.id] == before.rows[e.id].(revoked := true))
      && (own ==> AnswerAt(p0, run, i) == if before.rows[e.id].revoked || e.saveOk then Done else StoreError)
      && (!own ==> after == before)
      && after.rows.Keys == before.rows.Keys && after.policy == before.policy
      && forall k :: k in before.rows && k != e.id ==> after.rows[k] == before.rows[k]
  {
    var w, e := WorldAt(p0, run, i), run[i];
    forall owner { AuthorizedIff(w, e.caller, owner); }
    hide Authorized, Passes;
  }

  /** Once its owner has deleted it, an account is revoked in every later state, and its grants allow nothing. */
  lemma DeleteRevokes(p0: PolicyState, run: seq<Event>, i: nat, n: nat)
    requires i < n <= |run| && run[i].Delete? && FreshIDs(p0, run)
    requires var w := WorldAt(p0, run, i); run[i].id in w.rows && Passes(w, run[i].caller, w.rows[run[i].id].owner)
    ensures var rows := WorldAt(p0, run, n).rows;
      run[i].id in rows && rows[run[i].id].revoked && AllowsNothing(rows[run[i].id])
  {
    hide Step, Passes;
    DeleteNow(p0, run, i);
    RevokedForGood(p0, run, i + 1, n, run[i].id);
  }

  /** A change of roles changes no account. */
  lemma SetPolicyKeepsRows(p0: PolicyState, run: seq<Event>, i: nat)
    requires i < |run| && run[i].SetPolicy?
    ensures WorldAt(p0, run, i + 1) == World(run[i].policy, WorldAt(p0, run, i).rows)
  {
  }
}
