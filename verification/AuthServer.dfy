/** The handlers as they are written: checks in order, then the cookie is replaced. */
module AuthServer {
  import opened ElevationStore
  import opened Sessions
  import opened SessionRuns

  /** A session that no lapse of time and no role switch takes into admin mode. */
  ghost predicate UserModeForGood(c: Claims) {
    && c.activeRole == USER_ROLE
    && (forall now :: CurrentMode(c, now) == USER)
    && (forall now, kind, cluster :: CurrentMode(Switched(c, kind, cluster), now) == USER)
  }

  class Server {
    const cfg: Config
    const store: StateStore
    var now: int
    var settings: Settings
    var issued: seq<Claims> // every session cookie handed out; a request presents one of them

    ghost function View(): World
      reads this, store
    {
      World(now, issued, store.entries, settings)
    }

    constructor (cfg: Config, now: int, settings: Settings)
      ensures this.cfg == cfg && fresh(store)
      ensures View() == World(now, [], map[], settings)
    {
      this.cfg, this.now, this.settings, this.issued := cfg, now, settings, [];
      store := new StateStore();
    }

    /** An administrator changes settings. */
    method Administer(settings: Settings)
      modifies this
      ensures View() == Step(cfg, old(View()), Event.Administer(settings)).0
    {
      this.settings := settings;
    }

    /** Time passes. */
    method Tick(duration: nat)
      modifies this
      ensures View() == Step(cfg, old(View()), Event.Tick(duration)).0
    {
      now := now + duration;
    }

    /** A sign-in through OIDC or an accepted invite. */
    method ExternalLogin(userID: string, role: string, uiAdmin: bool)
      modifies this
      ensures View() == Step(cfg, old(View()), Event.ExternalLogin(userID, role, uiAdmin)).0
    {
      SetSessionCookie(TokenWithMode(userID, role, uiAdmin, USER, 0));
    }

    method SetSessionCookie(c: Claims)
      modifies this`issued
      ensures issued == old(issued) + [c]
    {
      issued := issued + [c];
    }

    method LoginHandler(username: string, password: string) returns (o: Outcome)
      modifies this, store
      ensures (View(), o) == Step(cfg, old(View()), Login(username, password))
      ensures o == Ok ==> username == cfg.adminUser && password != "" && (cfg.adminHash, password) in cfg.passwords
      ensures o == Ok ==> |issued| == |old(issued)| + 1 && UserModeForGood(issued[|old(issued)|])
      ensures o != Ok ==> issued == old(issued)
      ensures store.entries == old(store.entries) && old(issued) <= issued
    {
      if username == "" || password == "" { return InvalidRequest; }
      var usernameMatch := username == cfg.adminUser;
      var passwordMatch := VerifyPassword(cfg, cfg.adminHash, password);
      if !usernameMatch || !passwordMatch { return InvalidCredentials; }
      SetSessionCookie(TokenWithMode(cfg.adminUser, "admin", true, USER, 0));
      return Ok;
    }

    method ElevateHandler(cookie: nat, targetMode: string, password: string) returns (o: Outcome)
      modifies this, store
      ensures (View(), o) == Step(cfg, old(View()), Elevate(cookie, targetMode, password))
    {
      if cookie >= |issued| || issued[cookie].userID == "" { return Unauthorized; }
      var claims := issued[cookie];
      var target := targetMode;
      if target == "elevated" { target := ADMIN; }
      if target != ADMIN { return InvalidTargetMode; }
      if claims.userID != cfg.adminUser && settings.users.Some? {
        if claims.userID in settings.users.value {
          var u := settings.users.value[claims.userID];
          if u.passwordHash == "" && u.provider != "" {
            if !cfg.oidc { return OidcNotConfigured; }
            return OidcPivot;
          }
        }
      }
      if !VerifyElevationPassword(cfg, settings, claims.userID, password) { return InvalidPassword; }
      var ttl := AdminSessionTTL(settings);
      SetSessionCookie(TokenWithMode(claims.userID, claims.role, claims.uiAdmin, target, Unix(now + ttl * SECOND)));
      return Ok;
    }

    method ElevateOIDCStartHandler(cookie: nat, targetMode: string, state: string, nonce: string) returns (o: Outcome)
      modifies this, store
      ensures (View(), o) == Step(cfg, old(View()), StartOIDC(cookie, targetMode, state, nonce))
    {
      if cookie >= |issued| || issued[cookie].userID == "" { return Unauthorized; }
      var claims := issued[cookie];
      if !cfg.oidc { return OidcNotConfigured; }
      var target := targetMode;
      if target == "elevated" { target := ADMIN; }
      if target != ADMIN { return InvalidTargetMode; }
      store.Put(now, state, Entry(target, claims.userID, nonce, now));
      return Ok;
    }

    method ElevateOIDCCallbackHandler(cookie: nat, state: string, code: string, answer: IdpAnswer) returns (o: Outcome)
      modifies this, store
      ensures (View(), o) == Step(cfg, old(View()), CallbackOIDC(cookie, state, code, answer))
    {
      if cookie >= |issued| { return Unauthorized; }
      if !cfg.oidc { return OidcNotConfigured; }
      var claims := issued[cookie];
      if claims.userID == "" { return Unauthorized; }
      if state == "" { return StateMissing; }
      var taken := store.Take(now, state);
      if taken.None? { return StateInvalid; }
      var entry := taken.value;
      if entry.userID != claims.userID { return StateInvalid; }
      if code == "" { return CodeMissing; }
      if answer.ExchangeFails? { return ExchangeFailed; }
      if answer.NoIdToken? { return IdTokenMissing; }
      if !answer.verifies || entry.nonce == "" || answer.nonce != entry.nonce { return IdTokenInvalid; }
      var authDelta := Unix(now) - answer.authTime;
      if answer.authTime <= 0 || authDelta > AUTH_TIME_FRESHNESS || authDelta < -AUTH_TIME_FRESHNESS {
        return AuthTimeStale;
      }
      var ttl := AdminSessionTTL(settings);
      SetSessionCookie(TokenWithMode(claims.userID, claims.role, claims.uiAdmin,
        entry.targetMode, Unix(now + ttl * SECOND)));
      return Ok;
    }

    method ActiveRoleHandler(cookie: nat, kind: string, cluster: string) returns (o: Outcome)
      modifies this, store
      ensures (View(), o) == Step(cfg, old(View()), SwitchRole(cookie, kind, cluster))
    {
      if cookie >= |issued| || issued[cookie].userID == "" { return Unauthorized; }
      var claims := issued[cookie];
      if kind !in {"user", "cluster-admin", "ui-admin"} { return InvalidRoleKind; }
      var mode := CurrentMode(claims, now);
      var requiresElevation := false;
      if kind == "cluster-admin" {
        if cluster == "" { return ClusterRequired; }
        if !claims.uiAdmin && settings.policy.Some? {
          var hasGrant := FindGrant(AssignmentsFor(settings.policy.value, claims.userID), cluster);
          if !hasGrant { return Forbidden; }
        }
      } else if kind == "ui-admin" {
        if !claims.uiAdmin { return Forbidden; }
        if mode != ADMIN { requiresElevation := true; }
      }
      if requiresElevation && mode != ADMIN { return Locked; }
      var newRole := ActiveRole(kind, "");
      if kind == "cluster-admin" { newRole := newRole.(cluster := cluster); }
      SetSessionCookie(TokenWithActiveRole(claims.userID, claims.role, claims.uiAdmin,
        claims.mode, claims.modeExpiresAt, newRole));
      return Ok;
    }

    method LogoutElevationHandler(cookie: nat) returns (o: Outcome)
      modifies this, store
      ensures (View(), o) == Step(cfg, old(View()), DropElevation(cookie))
      ensures o == Ok ==> cookie < |old(issued)| && |issued| == |old(issued)| + 1
                          && UserModeForGood(issued[|old(issued)|])
                          && issued[|old(issued)|].userID == old(issued)[cookie].userID
      ensures o != Ok ==> issued == old(issued)
      ensures store.entries == old(store.entries) && old(issued) <= issued
    {
      if cookie >= |issued| || issued[cookie].userID == "" { return Unauthorized; }
      var claims := issued[cookie];
      SetSessionCookie(TokenWithMode(claims.userID, claims.role, claims.uiAdmin, "user", 0));
      return Ok;
    }
  }

  /** The grant search of the role gate. */
  method FindGrant(assignments: seq<Assignment>, cluster: string) returns (hasGrant: bool)
    ensures hasGrant == HasGrant(assignments, cluster)
  {
    hasGrant := false;
    for i := 0 to |assignments|
      invariant !hasGrant
      invariant forall k :: 0 <= k < i ==> !ClusterAdminAt(assignments[k], cluster)
    {
      if ClusterAdminAt(assignments[i], cluster) {
        hasGrant := true;
        break;
      }
    }
  }

  /** Hands one request to its handler. */
  method Dispatch(s: Server, e: Event)
    modifies s, s.store
    ensures s.View() == Step(s.cfg, old(s.View()), e).0
  {
    match e {
      case Login(username, password) =>
        var _ := s.LoginHandler(username, password);
      case ExternalLogin(userID, role, uiAdmin) =>
        s.ExternalLogin(userID, role, uiAdmin);
      case Elevate(cookie, targetMode, password) =>
        var _ := s.ElevateHandler(cookie, targetMode, password);
      case StartOIDC(cookie, targetMode, state, nonce) =>
        var _ := s.ElevateOIDCStartHandler(cookie, targetMode, state, nonce);
      case CallbackOIDC(cookie, state, code, answer) =>
        var _ := s.ElevateOIDCCallbackHandler(cookie, state, code, answer);
      case SwitchRole(cookie, kind, cluster) =>
        var _ := s.ActiveRoleHandler(cookie, kind, cluster);
      case DropElevation(cookie) =>
        var _ := s.LogoutElevationHandler(cookie);
      case Administer(settings) =>
        s.Administer(settings);
      case Tick(duration) =>
        s.Tick(duration);
    }
  }

  /** The session goes back to a re-authentication in the run, made in a session of its user less than 24
      hours before `now`. */
  ghost predicate RecentlyReauthenticated(cfg: Config, w0: World, run: seq<Event>, c: Claims, now: int) {
    exists i :: 0 <= i < |run| && ReauthAt(cfg, w0, run, i, c)
                && Unix(WorldAt(cfg, w0, run, i).now) <= Unix(now) < Unix(WorldAt(cfg, w0, run, i).now) + 86_400
  }

  /** The session was switched to its role by a request of the run that met the role's gate. */
  ghost predicate RoleEarned(cfg: Config, w0: World, run: seq<Event>, c: Claims) {
    c.activeRole != USER_ROLE ==> exists i :: 0 <= i < |run| && SwitchedAt(cfg, w0, run, i, c)
  }

  /** A server that has handled any series of requests: every cookie it has issued that is in admin mode
      now goes back to a re-authentication less than 24 hours ago in a session of its user, and every active
      role was earned. */
  method Serve(cfg: Config, now: int, settings: Settings, run: seq<Event>) returns (s: Server)
    requires now >= 0
    ensures fresh(s) && s.View() == WorldAt(cfg, World(now, [], map[], settings), run, |run|)
    ensures forall c :: c in s.issued ==> RoleEarned(cfg, World(now, [], map[], settings), run, c)
    ensures forall c :: c in s.issued && CurrentMode(c, s.now) == ADMIN ==>
      RecentlyReauthenticated(cfg, World(now, [], map[], settings), run, c, s.now)
  {
    hide Step, ReauthAt, SwitchedAt, CurrentMode, AdminSessionTTL;
    ghost var w0 := World(now, [], map[], settings);
    s := new Server(cfg, now, settings);
    for n := 0 to |run|
      invariant fresh(s) && fresh(s.store) && s.cfg == cfg && s.View() == WorldAt(cfg, w0, run, n)
    {
      Dispatch(s, run[n]);
    }
    forall c | c in s.issued ensures RoleEarned(cfg, w0, run, c) {
      var k :| 0 <= k < |s.issued| && s.issued[k] == c;
      ActiveRoleEarned(cfg, w0, run, |run|, k);
    }
    forall c | c in s.issued && CurrentMode(c, s.now) == ADMIN ensures RecentlyReauthenticated(cfg, w0, run, c, s.now) {
      var k :| 0 <= k < |s.issued| && s.issued[k] == c;
      AdminWindow(cfg, w0, run, |run|, k);
    }
  }
}
