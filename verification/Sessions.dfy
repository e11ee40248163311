/** Sessions and the sudo-style elevation protocol: what each handler decides, and the world of
    cookies and pending elevations it steps through. */
module Sessions {
  import opened Options
  import opened ElevationStore

  const USER := "user"
  const ADMIN := "admin"

  /** 2025-01-01T00:00:00Z, the end of the grace window for cookies without a mode. */
  const GRACE_UNTIL := 1_735_689_600 * SECOND

  const TTL_DEFAULT := 900
  const TTL_MIN := 60
  const TTL_MAX := 86_400
  const AUTH_TIME_FRESHNESS := 60

  datatype ActiveRole = ActiveRole(kind: string, cluster: string)

  const USER_ROLE := ActiveRole("user", "")

  /** The claims of a session cookie; modeExpiresAt is in unix seconds, 0 for never. */
  datatype Claims = Claims(
    userID: string, role: string, uiAdmin: bool,
    mode: string, modeExpiresAt: int, activeRole: ActiveRole)

  datatype Assignment = Assignment(roleID: string, scope: string)

  /** `subject` names the user at the identity provider. */
  datatype User = User(passwordHash: string, provider: string, subject: string)

  /** Fixed at boot. `passwords` holds the (hash, plaintext) pairs bcrypt accepts. */
  datatype Config = Config(adminUser: string, adminHash: string, oidc: bool, passwords: set<(string, string)>)

  /** What administrators may change at any time; None where a store is not wired. */
  datatype Settings = Settings(
    adminTTL: Option<int>,
    users: Option<map<string, User>>,
    policy: Option<map<string, seq<Assignment>>>)

  datatype World = World(now: int, issued: seq<Claims>, pending: map<string, Entry>, settings: Settings)

  /** How the identity provider answers a callback's code; `subject` is who signed in there. */
  datatype IdpAnswer =
    | ExchangeFails
    | NoIdToken
    | IdToken(verifies: bool, nonce: string, authTime: int, subject: string)

  /** One request; `cookie` picks any session ever issued. ExternalLogin is a sign-in through OIDC or
      an accepted invite. */
  datatype Event =
    | Login(username: string, password: string)
    | ExternalLogin(userID: string, role: string, uiAdmin: bool)
    | Elevate(cookie: nat, targetMode: string, password: string)
    | StartOIDC(cookie: nat, targetMode: string, state: string, nonce: string)
    | CallbackOIDC(cookie: nat, state: string, code: string, answer: IdpAnswer)
    | SwitchRole(cookie: nat, kind: string, cluster: string)
    | DropElevation(cookie: nat)
    | Administer(settings: Settings)
    | Tick(duration: nat)

  datatype Outcome =
    | Ok
    | Unauthorized | InvalidRequest | InvalidCredentials
    | InvalidTargetMode | OidcNotConfigured | OidcPivot | InvalidPassword
    | StateMissing | StateInvalid | CodeMissing | ExchangeFailed | IdTokenMissing | IdTokenInvalid | AuthTimeStale
    | InvalidRoleKind | ClusterRequired | Forbidden | Locked

  // ---- helpers of the handlers ----------------------------------------------------------

  function Unix(now: int): int { now / SECOND }

  function ClampAdminSessionTTL(v: int): int {
    if v <= 0 then TTL_DEFAULT
    else if v < TTL_MIN then TTL_MIN
    else if v > TTL_MAX then TTL_MAX
    else v
  }

  /** Seconds an elevation lasts. */
  function AdminSessionTTL(settings: Settings): int {
    if settings.adminTTL.None? then TTL_DEFAULT
    else ClampAdminSessionTTL(if settings.adminTTL.value <= 0 then TTL_DEFAULT else settings.adminTTL.value)
  }

  /** The mode a request runs in: legacy spellings normalised, an elapsed admin window dropped. */
  function CurrentMode(c: Claims, now: int): string {
    if c.mode == "" then (if now < GRACE_UNTIL then ADMIN else USER)
    else
      var mode := if c.mode == "elevated" then ADMIN else c.mode;
      if c.modeExpiresAt > 0 && Unix(now) >= c.modeExpiresAt && mode == ADMIN then USER else mode
  }

  predicate VerifyPassword(cfg: Config, hash: string, password: string) {
    (hash, password) in cfg.passwords
  }

  predicate VerifyElevationPassword(cfg: Config, settings: Settings, userID: string, password: string) {
    if password == "" then false
    else if userID == cfg.adminUser then VerifyPassword(cfg, cfg.adminHash, password)
    else if settings.users.None? || userID !in settings.users.value then false
    else if settings.users.value[userID].passwordHash == "" then false
    else VerifyPassword(cfg, settings.users.value[userID].passwordHash, password)
  }

  predicate OidcOnly(cfg: Config, settings: Settings, userID: string) {
    userID != cfg.adminUser && settings.users.Some? && userID in settings.users.value &&
    settings.users.value[userID].passwordHash == "" && settings.users.value[userID].provider != ""
  }

  /** "elevated" is the old spelling of "admin". */
  predicate AdminTarget(targetMode: string) {
    targetMode == ADMIN || targetMode == "elevated"
  }

  predicate FreshAuthTime(now: int, authTime: int) {
    authTime > 0 && -AUTH_TIME_FRESHNESS <= Unix(now) - authTime <= AUTH_TIME_FRESHNESS
  }

  function AssignmentsFor(policy: map<string, seq<Assignment>>, userID: string): seq<Assignment> {
    if userID in policy then policy[userID] else []
  }

  predicate ClusterAdminAt(a: Assignment, cluster: string) {
    "cluster_admin" <= a.roleID && (a.scope == "cluster:*" || a.scope == "cluster:" + cluster)
  }

  predicate HasGrant(assignments: seq<Assignment>, cluster: string) {
    exists a :: a in assignments && ClusterAdminAt(a, cluster)
  }

  // ---- decisions --------------------------------------------------------------------------

  function LoginOutcome(cfg: Config, username: string, password: string): Outcome {
    if username == "" || password == "" then InvalidRequest
    else if username != cfg.adminUser || !VerifyPassword(cfg, cfg.adminHash, password) then InvalidCredentials
    else Ok
  }

  function ElevateOutcome(cfg: Config, settings: Settings, c: Claims, targetMode: string, password: string): Outcome {
    if c.userID == "" then Unauthorized
    else if !AdminTarget(targetMode) then InvalidTargetMode
    else if OidcOnly(cfg, settings, c.userID) then (if cfg.oidc then OidcPivot else OidcNotConfigured)
    else if !VerifyElevationPassword(cfg, settings, c.userID, password) then InvalidPassword
    else Ok
  }

  function StartOutcome(cfg: Config, c: Claims, targetMode: string): Outcome {
    if c.userID == "" then Unauthorized
    else if !cfg.oidc then OidcNotConfigured
    else if !AdminTarget(targetMode) then InvalidTargetMode
    else Ok
  }

  /** Did the callback get as far as consuming the state? */
  predicate ReachesTake(cfg: Config, c: Claims, state: string) {
    cfg.oidc && c.userID != "" && state != ""
  }

  function CallbackOutcome(
    cfg: Config, now: int, c: Claims, state: string, taken: Option<Entry>, code: string, answer: IdpAnswer): Outcome
  {
    if !cfg.oidc then OidcNotConfigured
    else if c.userID == "" then Unauthorized
    else if state == "" then StateMissing
    else if taken.None? || taken.value.userID != c.userID then StateInvalid
    else if code == "" then CodeMissing
    else match answer
      case ExchangeFails => ExchangeFailed
      case NoIdToken => IdTokenMissing
      case IdToken(verifies, nonce, authTime, _) =>
        if !verifies || taken.value.nonce == "" || nonce != taken.value.nonce then IdTokenInvalid
        else if !FreshAuthTime(now, authTime) then AuthTimeStale
        else Ok
  }

  /** The gate of PUT /auth/active-role. */
  function SwitchOutcome(settings: Settings, now: int, c: Claims, kind: string, cluster: string): Outcome {
    if c.userID == "" then Unauthorized
    else if kind == "user" then Ok
    else if kind == "cluster-admin" then
      if cluster == "" then ClusterRequired
      else if !c.uiAdmin && settings.policy.Some? && !HasGrant(AssignmentsFor(settings.policy.value, c.userID), cluster)
      then Forbidden
      else Ok
    else if kind == "ui-admin" then
      if !c.uiAdmin then Forbidden
      else if CurrentMode(c, now) != ADMIN then Locked
      else Ok
    else InvalidRoleKind
  }

  // ---- cookies --------------------------------------------------------------------------------

  /** Tokens minted without an active role carry the user role. */
  function TokenWithMode(userID: string, role: string, uiAdmin: bool, mode: string, expires: int): Claims {
    TokenWithActiveRole(userID, role, uiAdmin, mode, expires, USER_ROLE)
  }

  function TokenWithActiveRole(
    userID: string, role: string, uiAdmin: bool, mode: string, expires: int, active: ActiveRole): Claims
  {
    Claims(userID, role, uiAdmin, if mode == "" then USER else mode, expires, active)
  }

  function Elevated(c: Claims, mode: string, now: int, settings: Settings): Claims {
    TokenWithMode(c.userID, c.role, c.uiAdmin, mode, Unix(now + AdminSessionTTL(settings) * SECOND))
  }

  function Switched(c: Claims, kind: string, cluster: string): Claims {
    TokenWithActiveRole(c.userID, c.role, c.uiAdmin, c.mode, c.modeExpiresAt,
      ActiveRole(kind, if kind == "cluster-admin" then cluster else ""))
  }

  // ---- one request -----------------------------------------------------------------------------

  function Issue(w: World, o: Outcome, c: Claims): World {
    if o == Ok then w.(issued := w.issued + [c]) else w
  }

  function Step(cfg: Config, w: World, e: Event): (World, Outcome) {
    match e
    case Login(username, password) =>
      var o := LoginOutcome(cfg, username, password);
      (Issue(w, o, TokenWithMode(cfg.adminUser, "admin", true, USER, 0)), o)
    case ExternalLogin(userID, role, uiAdmin) =>
      (Issue(w, Ok, TokenWithMode(userID, role, uiAdmin, USER, 0)), Ok)
    case Administer(settings) => (w.(settings := settings), Ok)
    case Tick(duration) => (w.(now := w.now + duration), Ok)
    case _ =>
      if e.cookie >= |w.issued| then (w, Unauthorized) else SessionStep(cfg, w, e, w.issued[e.cookie])
  }

  /** A request that presents a session. */
  function SessionStep(cfg: Config, w: World, e: Event, c: Claims): (World, Outcome)
    requires e.Elevate? || e.StartOIDC? || e.CallbackOIDC? || e.SwitchRole? || e.DropElevation?
  {
    match e
    case Elevate(_, targetMode, password) =>
      var o := ElevateOutcome(cfg, w.settings, c, targetMode, password);
      (Issue(w, o, Elevated(c, ADMIN, w.now, w.settings)), o)
    case StartOIDC(_, targetMode, state, nonce) =>
      var o := StartOutcome(cfg, c, targetMode);
      if o != Ok then (w, o)
      else (w.(pending := Swept(w.pending, w.now)[state := Entry(ADMIN, c.userID, nonce, w.now)]), o)
    case CallbackOIDC(_, state, code, answer) =>
      var taken := Taken(w.pending, w.now, state);
      var o := CallbackOutcome(cfg, w.now, c, state, taken, code, answer);
      var w' := if ReachesTake(cfg, c, state) then w.(pending := w.pending - {state}) else w;
      (if o == Ok then Issue(w', o, Elevated(c, taken.value.targetMode, w.now, w.settings)) else w', o)
    case SwitchRole(_, kind, cluster) =>
      var o := SwitchOutcome(w.settings, w.now, c, kind, cluster);
      (Issue(w, o, Switched(c, kind, cluster)), o)
    case DropElevation(_) =>
      var o := if c.userID == "" then Unauthorized else Ok;
      (Issue(w, o, TokenWithMode(c.userID, c.role, c.uiAdmin, USER, 0)), o)
  }
}
