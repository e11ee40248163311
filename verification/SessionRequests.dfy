/** What every request of the elevation protocol answers and changes, in plain terms: the exact condition of
    its success, the session it issues, and the moments at which that session is in admin mode. */
module SessionRequests {
  import opened Options
  import opened ElevationStore
  import opened Sessions
  import opened SessionRuns

  /** The length of an admin window in seconds: 15 minutes unless configured, and then no shorter than a
      minute and no longer than a day. */
  ghost predicate WindowLength(settings: Settings, seconds: int) {
    && (settings.adminTTL.None? || settings.adminTTL.value <= 0 ==> seconds == 900)
    && (settings.adminTTL.Some? && settings.adminTTL.value > 0 ==>
          && 60 <= seconds <= 86_400
          && (60 <= settings.adminTTL.value <= 86_400 ==> seconds == settings.adminTTL.value)
          && (settings.adminTTL.value < 60 ==> seconds == 60)
          && (settings.adminTTL.value > 86_400 ==> seconds == 86_400))
  }

  /** Known to the user store only through the identity provider. */
  ghost predicate ProviderOnly(cfg: Config, settings: Settings, userID: string) {
    && userID != cfg.adminUser && settings.users.Some? && userID in settings.users.value
    && settings.users.value[userID].passwordHash == "" && settings.users.value[userID].provider != ""
  }

  /** A session of user mode and no other role. */
  ghost predicate PlainSession(c: Claims, userID: string, role: string, uiAdmin: bool) {
    c == Claims(userID, role, uiAdmin, "user", 0, ActiveRole("user", ""))
  }

  /** An admin session of the same user that lasts from `now` for the configured length. */
  ghost predicate AdminSession(c: Claims, from: Claims, settings: Settings, now: int) {
    && c.userID == from.userID && c.role == from.role && c.uiAdmin == from.uiAdmin
    && c.mode == "admin" && c.activeRole == ActiveRole("user", "")
    && exists seconds :: WindowLength(settings, seconds) && c.modeExpiresAt == now / 1_000_000_000 + seconds
  }

  /** Nothing but the list of sessions changed, and that by at most one more. */
  ghost predicate OnlyIssues(before: World, after: World, ok: bool) {
    && after.now == before.now && after.settings == before.settings
    && |after.issued| == |before.issued| + (if ok then 1 else 0)
    && after.issued[..|before.issued|] == before.issued
  }

  lemma WindowIs(settings: Settings, now: int)
    ensures WindowLength(settings, AdminSessionTTL(settings))
    ensures Unix(now + AdminSessionTTL(settings) * SECOND) == now / 1_000_000_000 + AdminSessionTTL(settings)
  {
    UnixAdd(now, AdminSessionTTL(settings));
  }

  // ---- signing in ------------------------------------------------------------------------------

  lemma LoginIff(cfg: Config, w0: World, run: seq<Event>, i: nat)
    requires i < |run| && run[i].Login?
    ensures var before, after, e := WorldAt(cfg, w0, run, i), WorldAt(cfg, w0, run, i + 1), run[i];
      var ok := OutcomeAt(cfg, w0, run, i) == Ok;
      && (ok <==> e.username == cfg.adminUser && e.username != "" && e.password != ""
                  && (cfg.adminHash, e.password) in cfg.passwords)
      && OnlyIssues(before, after, ok) && after.pending == before.pending
      && (ok ==> PlainSession(after.issued[|before.issued|], cfg.adminUser, "admin", true))
  {
  }

  lemma ExternalLoginIssues(cfg: Config, w0: World, run: seq<Event>, i: nat)
    requires i < |run| && run[i].ExternalLogin?
    ensures var before, after, e := WorldAt(cfg, w0, run, i), WorldAt(cfg, w0, run, i + 1), run[i];
      && OnlyIssues(before, after, true) && after.pending == before.pending
      && PlainSession(after.issued[|before.issued|], e.userID, e.role, e.uiAdmin)
  {
  }

  // ---- elevating -------------------------------------------------------------------------------

  /** A password elevates exactly when it is the user's; a provider-only user is sent to the provider. */
  lemma ElevateIff(cfg: Config, w0: World, run: seq<Event>, i: nat)
    requires i < |run| && run[i].Elevate? && Presented(WorldAt(cfg, w0, run, i), run[i]).Some?
    ensures var before, after, e := WorldAt(cfg, w0, run, i), WorldAt(cfg, w0, run, i + 1), run[i];
      var c, o := Presented(before, e).value, OutcomeAt(cfg, w0, run, i);
      var asked := c.userID != "" && e.targetMode in {"admin", "elevated"};
      && (o == Ok <==> asked && !ProviderOnly(cfg, before.settings, c.userID)
                       && CorrectPassword(cfg, before.settings, c.userID, e.password))
      && (o == OidcPivot <==> asked && ProviderOnly(cfg, before.settings, c.userID) && cfg.oidc)
      && (o == InvalidPassword <==> asked && !ProviderOnly(cfg, before.settings, c.userID)
                                    && !CorrectPassword(cfg, before.settings, c.userID, e.password))
      && (o == Unauthorized <==> c.userID == "")
      && (o == InvalidTargetMode <==> c.userID != "" && e.targetMode !in {"admin", "elevated"})
      && (o == OidcNotConfigured <==> asked && ProviderOnly(cfg, before.settings, c.userID) && !cfg.oidc)
      && OnlyIssues(before, after, o == Ok) && after.pending == before.pending
      && (o == Ok ==> AdminSession(after.issued[|before.issued|], c, before.settings, before.now))
  {
    WindowIs(WorldAt(cfg, w0, run, i).settings, WorldAt(cfg, w0, run, i).now);
    hide AdminSessionTTL, WindowLength, Unix;
  }

  /** A start succeeds for any session where OIDC is configured; it records the user and the nonce under its
      state and forgets exactly the other entries older than five minutes. */
  lemma StartIff(cfg: Config, w0: World, run: seq<Event>, i: nat)
    requires i < |run| && run[i].StartOIDC? && Presented(WorldAt(cfg, w0, run, i), run[i]).Some?
    ensures var before, after, e := WorldAt(cfg, w0, run, i), WorldAt(cfg, w0, run, i + 1), run[i];
      var c, ok := Presented(before, e).value, OutcomeAt(cfg, w0, run, i) == Ok;
      && (ok <==> c.userID != "" && cfg.oidc && e.targetMode in {"admin", "elevated"})
      && OnlyIssues(before, after, false)
      && (!ok ==> after.pending == before.pending)
      && (ok ==> e.state in after.pending
                 && after.pending[e.state] == Entry("admin", c.userID, e.nonce, before.now))
      && (ok ==> forall k :: k != e.state ==>
            && (k in after.pending <==>
                  k in before.pending && before.now - before.pending[k].createdAt <= 300_000_000_000)
            && (k in after.pending ==> after.pending[k] == before.pending[k]))
  {
  }

  /** A callback issues an admin session when it succeeds, and whether it does or not the state is spent. */
  lemma CallbackIssues(cfg: Config, w0: World, run: seq<Event>, j: nat)
    requires Fresh(w0) && j < |run| && run[j].CallbackOIDC? && Presented(WorldAt(cfg, w0, run, j), run[j]).Some?
    ensures var before, after, e := WorldAt(cfg, w0, run, j), WorldAt(cfg, w0, run, j + 1), run[j];
      var c, ok := Presented(before, e).value, OutcomeAt(cfg, w0, run, j) == Ok;
      && OnlyIssues(before, after, ok)
      && (ok ==> AdminSession(after.issued[|before.issued|], c, before.settings, before.now))
      && after.pending == if cfg.oidc && c.userID != "" && e.state != ""
                          then before.pending - {e.state} else before.pending
  {
    var w := WorldAt(cfg, w0, run, j);
    WindowIs(w.settings, w.now);
    if run[j].state in w.pending {
      var i := PendingHasStart(cfg, w0, run, j, run[j].state);
      assert PendingFrom(cfg, w0, run, i, j);
    }
    hide AdminSessionTTL, WindowLength, Unix;
  }

  /** Why a callback is refused, check by check. */
  lemma CallbackRefusals(cfg: Config, w0: World, run: seq<Event>, j: nat)
    requires j < |run| && run[j].CallbackOIDC? && Presented(WorldAt(cfg, w0, run, j), run[j]).Some?
    ensures var w, e := WorldAt(cfg, w0, run, j), run[j];
      var c, o := Presented(w, e).value, OutcomeAt(cfg, w0, run, j);
      var known := e.state in w.pending && w.pending[e.state].userID == c.userID
                   && w.now - w.pending[e.state].createdAt <= 300_000_000_000;
      && (o == OidcNotConfigured <==> !cfg.oidc)
      && (o == Unauthorized <==> cfg.oidc && c.userID == "")
      && (o == StateMissing <==> cfg.oidc && c.userID != "" && e.state == "")
      && (o == StateInvalid <==> cfg.oidc && c.userID != "" && e.state != "" && !known)
      && (o in {CodeMissing, ExchangeFailed, IdTokenMissing, IdTokenInvalid, AuthTimeStale, Ok}
          <==> cfg.oidc && c.userID != "" && e.state != "" && known)
      && (o == CodeMissing ==> e.code == "")
      && (o == ExchangeFailed ==> e.code != "" && e.answer.ExchangeFails?)
      && (o == IdTokenMissing ==> e.code != "" && e.answer.NoIdToken?)
      && (o == IdTokenInvalid ==> e.code != "" && e.answer.IdToken?
                                  && !(e.answer.verifies && e.answer.nonce == w.pending[e.state].nonce != ""))
      && (o == AuthTimeStale ==> e.answer.IdToken? && e.answer.verifies
                                 && !(e.answer.authTime > 0 && -60 <= w.now / 1_000_000_000 - e.answer.authTime <= 60))
  {
  }

  // ---- the window ------------------------------------------------------------------------------

  /** The effective mode of any session issued: admin exactly before the expiry of an admin session. */
  lemma ModeIff(cfg: Config, w0: World, run: seq<Event>, n: nat, k: nat, now: int)
    requires Fresh(w0) && n <= |run| && k < |WorldAt(cfg, w0, run, n).issued|
    ensures var c := WorldAt(cfg, w0, run, n).issued[k];
      && (CurrentMode(c, now) == "admin" <==> c.mode == "admin" && now / 1_000_000_000 < c.modeExpiresAt)
      && CurrentMode(c, now) in {"user", "admin"}
  {
    var i := AdminDescends(cfg, w0, run, n, k);
    if WorldAt(cfg, w0, run, n).issued[k].mode == ADMIN {
      var w := WorldAt(cfg, w0, run, i);
      RunGrows(cfg, w0, run, 0, i);
      TTLBounds(w.settings);
    }
  }

  /** The admin window of an elevation, both ways: at any later moment of the run the session it issued is in
      admin mode if and only if the configured length has not passed. */
  lemma WindowIff(cfg: Config, w0: World, run: seq<Event>, i: nat, n: nat)
    requires Fresh(w0) && i < n <= |run|
    requires (run[i].Elevate? || run[i].CallbackOIDC?) && OutcomeAt(cfg, w0, run, i) == Ok
    ensures var past, w := WorldAt(cfg, w0, run, i), WorldAt(cfg, w0, run, n);
      && |past.issued| < |w.issued|
      && exists seconds :: WindowLength(past.settings, seconds)
           && (CurrentMode(w.issued[|past.issued|], w.now) == "admin"
               <==> w.now / 1_000_000_000 < past.now / 1_000_000_000 + seconds)
  {
    var k := |WorldAt(cfg, w0, run, i).issued|;
    ElevationIssues(cfg, w0, run, i);
    NewSessionStays(cfg, w0, run, i, n);
    ModeIff(cfg, w0, run, n, k, WorldAt(cfg, w0, run, n).now);
    hide WorldAt, CurrentMode, WindowLength;
  }

  lemma ElevationIssues(cfg: Config, w0: World, run: seq<Event>, i: nat)
    requires Fresh(w0) && i < |run|
    requires (run[i].Elevate? || run[i].CallbackOIDC?) && OutcomeAt(cfg, w0, run, i) == Ok
    ensures var before, after := WorldAt(cfg, w0, run, i), WorldAt(cfg, w0, run, i + 1);
      && |after.issued| == |before.issued| + 1 && after.issued[|before.issued|].mode == "admin"
      && exists seconds :: WindowLength(before.settings, seconds)
           && after.issued[|before.issued|].modeExpiresAt == before.now / 1_000_000_000 + seconds
  {
    if run[i].Elevate? {
      ElevateIff(cfg, w0, run, i);
    } else {
      CallbackIssues(cfg, w0, run, i);
    }
    hide WindowLength;
  }

  lemma NewSessionStays(cfg: Config, w0: World, run: seq<Event>, i: nat, n: nat)
    requires i < n <= |run| && |WorldAt(cfg, w0, run, i + 1).issued| == |WorldAt(cfg, w0, run, i).issued| + 1
    ensures var k := |WorldAt(cfg, w0, run, i).issued|;
      k < |WorldAt(cfg, w0, run, n).issued|
      && WorldAt(cfg, w0, run, n).issued[k] == WorldAt(cfg, w0, run, i + 1).issued[k]
  {
    RunGrows(cfg, w0, run, i + 1, n);
    var next, w := WorldAt(cfg, w0, run, i + 1).issued, WorldAt(cfg, w0, run, n).issued;
    assert forall k :: 0 <= k < |next| ==> w[..|next|][k] == w[k];
  }

  // ---- switching and dropping --------------------------------------------------------------------

  /** Whom the policy lets administer a cluster. */
  ghost predicate MayAdminister(settings: Settings, c: Claims, cluster: string) {
    || c.uiAdmin
    || settings.policy.None?
    || (c.userID in settings.policy.value
        && exists a :: a in settings.policy.value[c.userID] && "cluster_admin" <= a.roleID
                       && (a.scope == "cluster:*" || a.scope == "cluster:" + cluster))
  }

  /** The roles a session may take, given whether its admin window is in force. */
  ghost predicate MayTake(settings: Settings, c: Claims, kind: string, cluster: string, inForce: bool) {
    || kind == "user"
    || (kind == "cluster-admin" && cluster != "" && MayAdminister(settings, c, cluster))
    || (kind == "ui-admin" && c.uiAdmin && inForce)
  }

  /** The same session in another role. */
  ghost predicate InRole(after: Claims, before: Claims, kind: string, cluster: string) {
    && after.userID == before.userID && after.role == before.role && after.uiAdmin == before.uiAdmin
    && after.mode == before.mode && after.modeExpiresAt == before.modeExpiresAt
    && after.activeRole.kind == kind
    && after.activeRole.cluster == (if kind == "cluster-admin" then cluster else "")
  }

  /** When a session may switch to a role, and what it is told otherwise; a switch keeps user, mode and expiry. */
  lemma SwitchIff(cfg: Config, w0: World, run: seq<Event>, i: nat)
    requires Fresh(w0) && i < |run| && run[i].SwitchRole? && Presented(WorldAt(cfg, w0, run, i), run[i]).Some?
    ensures var before, after, e := WorldAt(cfg, w0, run, i), WorldAt(cfg, w0, run, i + 1), run[i];
      var c, o := Presented(before, e).value, OutcomeAt(cfg, w0, run, i);
      var inForce := c.mode == "admin" && before.now / 1_000_000_000 < c.modeExpiresAt;
      && (o == Ok <==> c.userID != "" && MayTake(before.settings, c, e.kind, e.cluster, inForce))
      && (o == Unauthorized <==> c.userID == "")
      && (o == InvalidRoleKind <==> c.userID != "" && e.kind !in {"user", "cluster-admin", "ui-admin"})
      && (o == ClusterRequired <==> c.userID != "" && e.kind == "cluster-admin" && e.cluster == "")
      && (o == Locked <==> c.userID != "" && e.kind == "ui-admin" && c.uiAdmin && !inForce)
      && OnlyIssues(before, after, o == Ok) && after.pending == before.pending
      && (o == Ok ==> InRole(after.issued[|before.issued|], c, e.kind, e.cluster))
  {
    var w := WorldAt(cfg, w0, run, i);
    ModeIff(cfg, w0, run, i, run[i].cookie, w.now);
    var _ := AdminDescends(cfg, w0, run, i, run[i].cookie);
    hide CurrentMode, AdminSessionTTL;
  }

  lemma DropIff(cfg: Config, w0: World, run: seq<Event>, i: nat)
    requires i < |run| && run[i].DropElevation? && Presented(WorldAt(cfg, w0, run, i), run[i]).Some?
    ensures var before, after, e := WorldAt(cfg, w0, run, i), WorldAt(cfg, w0, run, i + 1), run[i];
      var c, ok := Presented(before, e).value, OutcomeAt(cfg, w0, run, i) == Ok;
      && (ok <==> c.userID != "")
      && OnlyIssues(before, after, ok) && after.pending == before.pending
      && (ok ==> PlainSession(after.issued[|before.issued|], c.userID, c.role, c.uiAdmin))
  {
  }

  /** A request that presents no session does nothing. */
  lemma NoSessionRefused(cfg: Config, w0: World, run: seq<Event>, i: nat)
    requires i < |run| && Presented(WorldAt(cfg, w0, run, i), run[i]).None?
    requires !run[i].Login? && !run[i].ExternalLogin? && !run[i].Administer? && !run[i].Tick?
    ensures OutcomeAt(cfg, w0, run, i) == Unauthorized && WorldAt(cfg, w0, run, i + 1) == WorldAt(cfg, w0, run, i)
  {
  }

  // ---- cookies from before modes ------------------------------------------------------------------

  /** A cookie without a mode is in admin mode until the end of 2024; "elevated" means admin. */
  lemma LegacyMode(c: Claims, now: int)
    ensures c.mode == "" ==> CurrentMode(c, now) == if now < 1_735_689_600_000_000_000 then "admin" else "user"
    ensures c.mode == "elevated" ==> CurrentMode(c, now) == CurrentMode(c.(mode := "admin"), now)
    ensures c.mode == "user" ==> CurrentMode(c, now) == "user"
  {
  }
}
