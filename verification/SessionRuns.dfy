/** Whole runs of the elevation protocol: any sequence of requests, clock advances and changes by
    administrators, where a request may present any cookie ever issued. */
module SessionRuns {
  import opened Options
  import opened ElevationStore
  import opened Sessions

  /** A server that has issued nothing yet, after 1970. */
  predicate Fresh(w0: World) {
    w0.now >= 0 && w0.issued == [] && w0.pending == map[]
  }

  /** The world after the first n events of a run. */
  function WorldAt(cfg: Config, w0: World, run: seq<Event>, n: nat): World
    requires n <= |run|
  {
    if n == 0 then w0 else Step(cfg, WorldAt(cfg, w0, run, n - 1), run[n - 1]).0
  }

  function OutcomeAt(cfg: Config, w0: World, run: seq<Event>, i: nat): Outcome
    requires i < |run|
  {
    Step(cfg, WorldAt(cfg, w0, run, i), run[i]).1
  }

  /** The session a request presents. */
  function Presented(w: World, e: Event): Option<Claims> {
    if (e.Elevate? || e.StartOIDC? || e.CallbackOIDC? || e.SwitchRole? || e.DropElevation?) && e.cookie < |w.issued|
    then Some(w.issued[e.cookie]) else None
  }

  // ---- monotonicity ------------------------------------------------------------------------

  lemma StepGrows(cfg: Config, w: World, e: Event)
    ensures var t := Step(cfg, w, e).0;
      w.now <= t.now && |w.issued| <= |t.issued| <= |w.issued| + 1 && t.issued[..|w.issued|] == w.issued
    ensures |Step(cfg, w, e).0.issued| > |w.issued| ==> Step(cfg, w, e).1 == Ok
  {
  }

  lemma {:induction false} RunGrows(cfg: Config, w0: World, run: seq<Event>, i: nat, n: nat)
    requires i <= n <= |run|
    ensures var a, b := WorldAt(cfg, w0, run, i), WorldAt(cfg, w0, run, n);
      a.now <= b.now && |a.issued| <= |b.issued| && b.issued[..|a.issued|] == a.issued
  {
    if i < n {
      RunGrows(cfg, w0, run, i, n - 1);
      StepGrows(cfg, WorldAt(cfg, w0, run, n - 1), run[n - 1]);
    }
  }

  lemma TTLBounds(settings: Settings)
    ensures TTL_MIN <= AdminSessionTTL(settings) <= TTL_MAX
  {
  }

  lemma UnixAdd(now: int, seconds: int)
    ensures Unix(now + seconds * SECOND) == Unix(now) + seconds
  {
  }

  // ---- admin sessions descend from re-authentication -----------------------------------------

  /** The password is the user's: the administrator's fixed one, or the one stored for the user. */
  ghost predicate CorrectPassword(cfg: Config, settings: Settings, userID: string, password: string) {
    && password != ""
    && (userID == cfg.adminUser ==> (cfg.adminHash, password) in cfg.passwords)
    && (userID != cfg.adminUser ==>
          && settings.users.Some? && userID in settings.users.value
          && settings.users.value[userID].passwordHash != ""
          && (settings.users.value[userID].passwordHash, password) in cfg.passwords)
  }

  /** Event i of the run, made in a session of the user of `c`, was a re-authentication and fixed the expiry
      `c` carries: the user's correct password, or an OIDC callback that consumed a pending entry of that user
      and came with a verified token for that entry's nonce and a fresh auth_time. Whose token it is is not
      asked. */
  ghost predicate ReauthAt(cfg: Config, w0: World, run: seq<Event>, i: nat, c: Claims) {
    i < |run| &&
    var w, e := WorldAt(cfg, w0, run, i), run[i];
    && OutcomeAt(cfg, w0, run, i) == Ok
    && Presented(w, e).Some? && Presented(w, e).value.userID == c.userID
    && c.modeExpiresAt == Unix(w.now) + AdminSessionTTL(w.settings)
    && ((e.Elevate? && CorrectPassword(cfg, w.settings, c.userID, e.password))
        || (e.CallbackOIDC? && e.state in w.pending && w.pending[e.state].userID == c.userID
            && w.now - w.pending[e.state].createdAt <= 300_000_000_000
            && e.answer.IdToken? && e.answer.verifies && e.answer.nonce == w.pending[e.state].nonce
            && -60 <= Unix(w.now) - e.answer.authTime <= 60))
  }

  /** The event that issued session k. */
  lemma {:induction false} IssuedBy(cfg: Config, w0: World, run: seq<Event>, n: nat, k: nat) returns (i: nat)
    requires Fresh(w0) && n <= |run| && k < |WorldAt(cfg, w0, run, n).issued|
    ensures i < n && |WorldAt(cfg, w0, run, i).issued| == k
    ensures WorldAt(cfg, w0, run, i + 1).issued
            == WorldAt(cfg, w0, run, i).issued + [WorldAt(cfg, w0, run, n).issued[k]]
    ensures OutcomeAt(cfg, w0, run, i) == Ok
  {
    hide Step;
    var prev := WorldAt(cfg, w0, run, n - 1);
    StepGrows(cfg, prev, run[n - 1]);
    if k < |prev.issued| {
      i := IssuedBy(cfg, w0, run, n - 1, k);
      assert WorldAt(cfg, w0, run, n).issued[..|prev.issued|][k] == prev.issued[k];
    } else {
      i := n - 1;
    }
  }

  /** Every session in admin mode carries the expiry of a re-authentication made in a session of its user.
      Switching roles hands mode and expiry on unchanged, so nothing else can prolong it. */
  lemma {:induction false} AdminDescends(cfg: Config, w0: World, run: seq<Event>, n: nat, k: nat) returns (i: nat)
    requires Fresh(w0) && n <= |run| && k < |WorldAt(cfg, w0, run, n).issued|
    ensures var c := WorldAt(cfg, w0, run, n).issued[k];
      && ((c.mode == USER && c.modeExpiresAt == 0) || c.mode == ADMIN)
      && (c.mode == ADMIN ==> i < n && ReauthAt(cfg, w0, run, i, c))
    decreases n
  {
    var c := WorldAt(cfg, w0, run, n).issued[k];
    i := IssuedBy(cfg, w0, run, n, k);
    var w := WorldAt(cfg, w0, run, i);
    assert c == WorldAt(cfg, w0, run, i + 1).issued[k];
    if run[i].SwitchRole? {
      assert run[i].cookie < k;
      i := AdminDescends(cfg, w0, run, i, run[i].cookie);
    } else {
      if run[i].CallbackOIDC? {
        var start := PendingHasStart(cfg, w0, run, i, run[i].state);
        assert PendingFrom(cfg, w0, run, start, i);
      }
      UnixAdd(w.now, AdminSessionTTL(w.settings));
    }
  }

  /** Exactly which requests hand out admin mode: the two re-authentications, and a switch made by an
      admin session, which passes its expiry on. Sessions from signing in or dropping are user-mode for
      good. */
  lemma AdminIssuers(cfg: Config, w0: World, run: seq<Event>, n: nat, k: nat) returns (i: nat)
    requires Fresh(w0) && n <= |run| && k < |WorldAt(cfg, w0, run, n).issued|
    ensures i < n && |WorldAt(cfg, w0, run, i).issued| == k && OutcomeAt(cfg, w0, run, i) == Ok
    ensures var c, e, w := WorldAt(cfg, w0, run, n).issued[k], run[i], WorldAt(cfg, w0, run, i);
      && (c.mode == ADMIN <==> e.Elevate? || e.CallbackOIDC? || (e.SwitchRole? && w.issued[e.cookie].mode == ADMIN))
      && (e.SwitchRole? ==> c.modeExpiresAt == w.issued[e.cookie].modeExpiresAt && c.activeRole.kind == e.kind)
      && (e.Login? || e.ExternalLogin? || e.DropElevation? ==>
            c.activeRole == USER_ROLE && forall now :: CurrentMode(c, now) == USER)
  {
    var c := WorldAt(cfg, w0, run, n).issued[k];
    i := IssuedBy(cfg, w0, run, n, k);
    assert c == WorldAt(cfg, w0, run, i + 1).issued[k];
    if run[i].SwitchRole? {
      var _ := AdminDescends(cfg, w0, run, i, run[i].cookie);
    }
    if run[i].CallbackOIDC? {
      var start := PendingHasStart(cfg, w0, run, i, run[i].state);
      assert PendingFrom(cfg, w0, run, start, i);
    }
  }

  /** At any moment of any run, a session whose effective mode is admin goes back to a re-authentication in a
      session of the same user less than that moment's TTL, hence less than 24 hours, ago. */
  lemma AdminWindow(cfg: Config, w0: World, run: seq<Event>, n: nat, k: nat)
    requires Fresh(w0) && n <= |run| && k < |WorldAt(cfg, w0, run, n).issued|
    requires var w := WorldAt(cfg, w0, run, n); CurrentMode(w.issued[k], w.now) == ADMIN
    ensures var w := WorldAt(cfg, w0, run, n);
      exists i :: 0 <= i < n && ReauthAt(cfg, w0, run, i, w.issued[k]) &&
        var past := WorldAt(cfg, w0, run, i);
        Unix(past.now) <= Unix(w.now) < Unix(past.now) + AdminSessionTTL(past.settings) <= Unix(past.now) + 86_400
  {
    var w := WorldAt(cfg, w0, run, n);
    var i := AdminDescends(cfg, w0, run, n, k);
    RunGrows(cfg, w0, run, 0, i);
    RunGrows(cfg, w0, run, i, n);
    TTLBounds(WorldAt(cfg, w0, run, i).settings);
  }

  // ---- whose re-authentication it was ---------------------------------------------------------

  /** A re-authentication by the user of `c` in person: a callback's token names that user's subject. */
  ghost predicate OwnReauthAt(cfg: Config, w0: World, run: seq<Event>, i: nat, c: Claims) {
    && ReauthAt(cfg, w0, run, i, c)
    && (run[i].CallbackOIDC? ==>
          var users := WorldAt(cfg, w0, run, i).settings.users;
          users.Some? && c.userID in users.value && run[i].answer.subject == users.value[c.userID].subject)
  }

  /** In every run, every session in admin mode goes back to its user's own re-authentication. */
  ghost predicate AlwaysOwn(cfg: Config, w0: World) {
    forall run: seq<Event>, n: nat, k: nat ::
      n <= |run| && k < |WorldAt(cfg, w0, run, n).issued| ==> OwnedOrUser(cfg, w0, run, n, k)
  }

  ghost predicate OwnedOrUser(cfg: Config, w0: World, run: seq<Event>, n: nat, k: nat)
    requires n <= |run| && k < |WorldAt(cfg, w0, run, n).issued|
  {
    var c := WorldAt(cfg, w0, run, n).issued[k];
    c.mode == ADMIN ==> exists i :: 0 <= i < n && OwnReauthAt(cfg, w0, run, i, c)
  }

  /** The session of "u", whose subject at the provider is "u-at-idp". */
  const U_SESSION := TokenWithMode("u", "user", false, USER, 0)
  const U_SETTINGS := Settings(None, Some(map["u" := User("", "idp", "u-at-idp")]), None)

  /** A start by "u" completed by a token with another subject. */
  function OtherSubject(now: int): seq<Event> {
    [Administer(U_SETTINGS), ExternalLogin("u", "user", false), StartOIDC(0, ADMIN, "state", "nonce"),
     CallbackOIDC(0, "state", "code", IdToken(true, "nonce", Unix(now) + 1, "another"))]
  }

  lemma WorldNext(cfg: Config, w0: World, run: seq<Event>, n: nat)
    requires n < |run|
    ensures WorldAt(cfg, w0, run, n + 1) == Step(cfg, WorldAt(cfg, w0, run, n), run[n]).0
  {
  }

  lemma OtherSubjectPending(cfg: Config, w0: World)
    requires Fresh(w0) && cfg.oidc
    ensures var entry := Entry(ADMIN, "u", "nonce", w0.now);
      WorldAt(cfg, w0, OtherSubject(w0.now), 3) == World(w0.now, [U_SESSION], map["state" := entry], U_SETTINGS)
  {
    hide WorldAt;
    var run := OtherSubject(w0.now);
    assert WorldAt(cfg, w0, run, 0) == w0 by { WorldStart(cfg, w0, run); }
    WorldNext(cfg, w0, run, 0);
    WorldNext(cfg, w0, run, 1);
    WorldNext(cfg, w0, run, 2);
    assert Swept(map[], w0.now) == map[];
  }

  lemma WorldStart(cfg: Config, w0: World, run: seq<Event>)
    ensures WorldAt(cfg, w0, run, 0) == w0
  {
  }

  /** It succeeds wherever OIDC is configured. */
  lemma OtherSubjectAccepted(cfg: Config, w0: World)
    requires Fresh(w0) && cfg.oidc
    ensures var run := OtherSubject(w0.now);
      && WorldAt(cfg, w0, run, 4).issued == [U_SESSION, Elevated(U_SESSION, ADMIN, w0.now, U_SETTINGS)]
      && OutcomeAt(cfg, w0, run, 3) == Ok
      && forall i :: 0 <= i < 4 ==> !OwnReauthAt(cfg, w0, run, i, Elevated(U_SESSION, ADMIN, w0.now, U_SETTINGS))
  {
    var run, c := OtherSubject(w0.now), Elevated(U_SESSION, ADMIN, w0.now, U_SETTINGS);
    OtherSubjectPending(cfg, w0);
    hide WorldAt;
    WorldNext(cfg, w0, run, 3);
    OtherSubjectCallback(cfg, w0.now);
    hide Step, OtherSubject;
    assert run == OtherSubject(w0.now) && |run| == 4;
    OtherSubjectNotOwn(cfg, w0, c);
  }

  lemma OtherSubjectCallback(cfg: Config, now: int)
    requires cfg.oidc && now >= 0
    ensures var w := World(now, [U_SESSION], map["state" := Entry(ADMIN, "u", "nonce", now)], U_SETTINGS);
      Step(cfg, w, OtherSubject(now)[3]).1 == Ok
      && Step(cfg, w, OtherSubject(now)[3]).0.issued == [U_SESSION, Elevated(U_SESSION, ADMIN, now, U_SETTINGS)]
  {
  }

  lemma OtherSubjectNotOwn(cfg: Config, w0: World, c: Claims)
    requires Fresh(w0) && cfg.oidc && c.userID == "u"
    ensures forall i :: 0 <= i < 4 ==> !OwnReauthAt(cfg, w0, OtherSubject(w0.now), i, c)
  {
    OtherSubjectPending(cfg, w0);
    hide WorldAt, Step, VerifyElevationPassword, AdminSessionTTL;
  }

  /** Admin mode always goes back to the user's own re-authentication if and only if OIDC is off: the
      callback discards the token's subject, so a fresh sign-in of anyone at the provider will do. */
  lemma OwnReauthIff(cfg: Config, w0: World)
    requires Fresh(w0)
    ensures AlwaysOwn(cfg, w0) <==> !cfg.oidc
  {
    hide Step, OwnReauthAt, WorldAt;
    if cfg.oidc {
      OtherSubjectAccepted(cfg, w0);
      assert !OwnedOrUser(cfg, w0, OtherSubject(w0.now), 4, 1);
    } else {
      forall run: seq<Event>, n: nat, k: nat | n <= |run| && k < |WorldAt(cfg, w0, run, n).issued|
        ensures OwnedOrUser(cfg, w0, run, n, k)
      {
        PasswordsAreOwn(cfg, w0, run, n, k);
      }
    }
  }

  lemma PasswordsAreOwn(cfg: Config, w0: World, run: seq<Event>, n: nat, k: nat)
    requires Fresh(w0) && !cfg.oidc && n <= |run| && k < |WorldAt(cfg, w0, run, n).issued|
    ensures OwnedOrUser(cfg, w0, run, n, k)
  {
    var c := WorldAt(cfg, w0, run, n).issued[k];
    var i := AdminDescends(cfg, w0, run, n, k);
    if c.mode == ADMIN {
      assert !run[i].CallbackOIDC?;
      assert OwnReauthAt(cfg, w0, run, i, c);
    }
  }

  // ---- active roles --------------------------------------------------------------------------------

  /** What a session with a non-user active role owes to the switch that issued it; mode and expiry
      are those of the session that was switched. */
  ghost predicate SwitchedAt(cfg: Config, w0: World, run: seq<Event>, i: nat, c: Claims) {
    i < |run| &&
    var w, e := WorldAt(cfg, w0, run, i), run[i];
    && e.SwitchRole? && e.cookie < |w.issued| && w.issued[e.cookie].userID == c.userID
    && e.kind == c.activeRole.kind && (e.kind == "cluster-admin" ==> e.cluster == c.activeRole.cluster)
    && w.issued[e.cookie].uiAdmin == c.uiAdmin
    && w.issued[e.cookie].mode == c.mode && w.issued[e.cookie].modeExpiresAt == c.modeExpiresAt
    && (c.activeRole.kind == "ui-admin" ==> c.uiAdmin && CurrentMode(w.issued[e.cookie], w.now) == ADMIN)
    && (c.activeRole.kind == "cluster-admin" ==>
          && c.activeRole.cluster != ""
          && (c.uiAdmin || w.settings.policy.None?
              || HasGrant(AssignmentsFor(w.settings.policy.value, c.userID), c.activeRole.cluster)))
  }

  lemma ActiveRoleEarned(cfg: Config, w0: World, run: seq<Event>, n: nat, k: nat)
    requires Fresh(w0) && n <= |run| && k < |WorldAt(cfg, w0, run, n).issued|
    ensures var c := WorldAt(cfg, w0, run, n).issued[k];
      && c.activeRole.kind in {"user", "cluster-admin", "ui-admin"}
      && (c.activeRole.kind != "cluster-admin" ==> c.activeRole.cluster == "")
      && (c.activeRole != USER_ROLE ==> exists i :: 0 <= i < n && SwitchedAt(cfg, w0, run, i, c))
  {
    var c := WorldAt(cfg, w0, run, n).issued[k];
    var i := IssuedBy(cfg, w0, run, n, k);
    assert c == WorldAt(cfg, w0, run, i + 1).issued[k];
    if c.activeRole != USER_ROLE {
      var _ := AdminDescends(cfg, w0, run, i, run[i].cookie);
      assert SwitchedAt(cfg, w0, run, i, c);
    }
  }

  /** So a UI-admin session was obtained within 24 hours of a re-authentication in a session of its user. */
  lemma UIAdminNeedsReauth(cfg: Config, w0: World, run: seq<Event>, n: nat, k: nat)
    requires Fresh(w0) && n <= |run| && k < |WorldAt(cfg, w0, run, n).issued|
    requires WorldAt(cfg, w0, run, n).issued[k].activeRole.kind == "ui-admin"
    ensures var c := WorldAt(cfg, w0, run, n).issued[k];
      exists i, j :: 0 <= i < j < n && SwitchedAt(cfg, w0, run, j, c) && ReauthAt(cfg, w0, run, i, c) &&
        Unix(WorldAt(cfg, w0, run, j).now) < Unix(WorldAt(cfg, w0, run, i).now) + 86_400
  {
    var c := WorldAt(cfg, w0, run, n).issued[k];
    ActiveRoleEarned(cfg, w0, run, n, k);
    var j: nat :| j < n && SwitchedAt(cfg, w0, run, j, c);
    AdminWindow(cfg, w0, run, j, run[j].cookie);
    var i: nat :| i < j && ReauthAt(cfg, w0, run, i, WorldAt(cfg, w0, run, j).issued[run[j].cookie]) &&
      Unix(WorldAt(cfg, w0, run, j).now) < Unix(WorldAt(cfg, w0, run, i).now) + 86_400;
    assert ReauthAt(cfg, w0, run, i, c);
  }

  // ---- callbacks and starts -----------------------------------------------------------------------------

  /** The entry start i made is still the pending entry of its state after m events. */
  ghost predicate PendingFrom(cfg: Config, w0: World, run: seq<Event>, i: nat, m: nat) {
    i < m <= |run| && run[i].StartOIDC? &&
    var w, p := WorldAt(cfg, w0, run, i), WorldAt(cfg, w0, run, m).pending;
    && OutcomeAt(cfg, w0, run, i) == Ok
    && Presented(w, run[i]).Some?
    && run[i].state in p
    && p[run[i].state] == Entry(ADMIN, Presented(w, run[i]).value.userID, run[i].nonce, w.now)
  }

  /** Callback j completes start i: the entry i minted sat there untouched until j. */
  ghost predicate Completes(cfg: Config, w0: World, run: seq<Event>, i: nat, j: nat) {
    && i < j < |run| && run[i].StartOIDC? && run[j].CallbackOIDC? && run[i].state == run[j].state
    && (forall m :: i < m <= j ==> PendingFrom(cfg, w0, run, i, m))
  }

  /** Event p replaces or consumes the pending entry of a state. */
  ghost predicate Touches(cfg: Config, w0: World, run: seq<Event>, p: nat, state: string)
    requires p < |run|
  {
    var presented := Presented(WorldAt(cfg, w0, run, p), run[p]);
    || (run[p].StartOIDC? && run[p].state == state && OutcomeAt(cfg, w0, run, p) == Ok)
    || (run[p].CallbackOIDC? && run[p].state == state && state != "" && cfg.oidc
        && presented.Some? && presented.value.userID != "")
  }

  /** A callback that gets as far as its state leaves no entry of it. */
  lemma CallbackConsumes(cfg: Config, w0: World, run: seq<Event>, p: nat, state: string)
    requires p < |run|
    ensures run[p].CallbackOIDC? && Touches(cfg, w0, run, p, state) ==> state !in WorldAt(cfg, w0, run, p + 1).pending
  {
    hide CallbackOutcome;
  }

  /** An entry pending after a request is the one it made, or was pending before it. */
  lemma PendingSource(cfg: Config, w: World, e: Event, state: string)
    requires state in Step(cfg, w, e).0.pending
    ensures var entry := Step(cfg, w, e).0.pending[state];
      if e.StartOIDC? && e.state == state && Step(cfg, w, e).1 == Ok
      then e.cookie < |w.issued| && entry == Entry(ADMIN, w.issued[e.cookie].userID, e.nonce, w.now)
      else state in w.pending && entry == w.pending[state]
  {
    hide CallbackOutcome, ElevateOutcome, SwitchOutcome, LoginOutcome, ReachesTake;
  }

  ghost predicate Starts(cfg: Config, w0: World, run: seq<Event>, p: nat, state: string)
    requires p < |run|
  {
    run[p].StartOIDC? && run[p].state == state && OutcomeAt(cfg, w0, run, p) == Ok
  }

  lemma PendingStep(cfg: Config, w0: World, run: seq<Event>, p: nat, state: string)
    requires p < |run| && state in WorldAt(cfg, w0, run, p + 1).pending
    ensures Starts(cfg, w0, run, p, state) ==> PendingFrom(cfg, w0, run, p, p + 1)
    ensures !Starts(cfg, w0, run, p, state) ==>
      && !Touches(cfg, w0, run, p, state)
      && state in WorldAt(cfg, w0, run, p).pending
      && WorldAt(cfg, w0, run, p).pending[state] == WorldAt(cfg, w0, run, p + 1).pending[state]
  {
    PendingSource(cfg, WorldAt(cfg, w0, run, p), run[p], state);
    CallbackConsumes(cfg, w0, run, p, state);
    hide Step;
  }

  lemma {:induction false} PendingHasStart(cfg: Config, w0: World, run: seq<Event>, n: nat, state: string)
    returns (i: nat)
    requires Fresh(w0) && n <= |run| && state in WorldAt(cfg, w0, run, n).pending
    ensures i < n && run[i].StartOIDC? && run[i].state == state
    ensures forall m :: i < m <= n ==> PendingFrom(cfg, w0, run, i, m)
    ensures forall p :: i < p < n ==> !Touches(cfg, w0, run, p, state)
  {
    assert n > 0;
    hide Step, Touches, OutcomeAt;
    PendingStep(cfg, w0, run, n - 1, state);
    if Starts(cfg, w0, run, n - 1, state) {
      i := n - 1;
    } else {
      i := PendingHasStart(cfg, w0, run, n - 1, state);
      assert PendingFrom(cfg, w0, run, i, n - 1);
    }
  }

  /** Start i and callback j belong together. */
  ghost predicate SameElevation(cfg: Config, w0: World, run: seq<Event>, i: nat, j: nat) {
    i < j < |run| && run[i].StartOIDC? && run[j].CallbackOIDC? &&
    var wi, wj := WorldAt(cfg, w0, run, i), WorldAt(cfg, w0, run, j);
    && Presented(wi, run[i]).Some? && Presented(wj, run[j]).Some?
    && Presented(wi, run[i]).value.userID == Presented(wj, run[j]).value.userID
    && 0 <= wj.now - wi.now <= 300_000_000_000
    && run[i].targetMode in {"admin", "elevated"}
    && run[j].answer.IdToken? && run[j].answer.nonce == run[i].nonce
  }

  /** Every successful callback completes an earlier start: made by the same user, at most five minutes
      before, for admin mode, and with the nonce that the verified token carries. Minted states need not
      be distinct: a state minted twice stands for the later start. */
  lemma CallbackCompletesStart(cfg: Config, w0: World, run: seq<Event>, j: nat)
    requires Fresh(w0) && j < |run| && run[j].CallbackOIDC? && OutcomeAt(cfg, w0, run, j) == Ok
    ensures exists i :: 0 <= i < j && Completes(cfg, w0, run, i, j) && SameElevation(cfg, w0, run, i, j)
  {
    var i := PendingHasStart(cfg, w0, run, j, run[j].state);
    assert PendingFrom(cfg, w0, run, i, j);
    RunGrows(cfg, w0, run, i, j);
    assert Completes(cfg, w0, run, i, j) && SameElevation(cfg, w0, run, i, j);
  }

  lemma CompletedIsGone(cfg: Config, w0: World, run: seq<Event>, i: nat, j: nat)
    requires j < |run| && Completes(cfg, w0, run, i, j) && OutcomeAt(cfg, w0, run, j) == Ok
    ensures !PendingFrom(cfg, w0, run, i, j + 1)
  {
  }

  /** No start is completed twice, however callbacks and starts are interleaved. */
  lemma CompletionInjective(cfg: Config, w0: World, run: seq<Event>, i: nat, j1: nat, j2: nat)
    requires j1 < |run| && j2 < |run|
    requires Completes(cfg, w0, run, i, j1) && OutcomeAt(cfg, w0, run, j1) == Ok
    requires Completes(cfg, w0, run, i, j2) && OutcomeAt(cfg, w0, run, j2) == Ok
    ensures j1 == j2
  {
    CompletedIsGone(cfg, w0, run, i, j1);
    CompletedIsGone(cfg, w0, run, i, j2);
  }

  /** A request that does not touch a pending entry leaves it, unless it has expired. */
  lemma StepKeepsPending(cfg: Config, w0: World, run: seq<Event>, p: nat, state: string)
    requires p < |run| && !Touches(cfg, w0, run, p, state) && state in WorldAt(cfg, w0, run, p).pending
    requires var w := WorldAt(cfg, w0, run, p);
      WorldAt(cfg, w0, run, p + 1).now - w.pending[state].createdAt <= 300_000_000_000
    ensures var before, after := WorldAt(cfg, w0, run, p).pending, WorldAt(cfg, w0, run, p + 1).pending;
      state in after && after[state] == before[state]
  {
    hide StartOutcome, CallbackOutcome, ElevateOutcome, SwitchOutcome, LoginOutcome;
  }

  lemma StartMakesPending(cfg: Config, w0: World, run: seq<Event>, i: nat)
    requires i < |run| && run[i].StartOIDC? && OutcomeAt(cfg, w0, run, i) == Ok
    ensures PendingFrom(cfg, w0, run, i, i + 1)
  {
  }

  /** A start nobody interferes with stays pending for its five minutes, whatever the sweeps remove. */
  lemma {:induction false} StartStaysPending(cfg: Config, w0: World, run: seq<Event>, i: nat, m: nat)
    requires i < m <= |run| && run[i].StartOIDC? && OutcomeAt(cfg, w0, run, i) == Ok
    requires forall p :: i < p < m ==> !Touches(cfg, w0, run, p, run[i].state)
    requires WorldAt(cfg, w0, run, m).now - WorldAt(cfg, w0, run, i).now <= 300_000_000_000
    ensures PendingFrom(cfg, w0, run, i, m)
  {
    hide Step, Touches;
    StartMakesPending(cfg, w0, run, i);
    if i < m - 1 {
      RunGrows(cfg, w0, run, m - 1, m);
      StartStaysPending(cfg, w0, run, i, m - 1);
      StepKeepsPending(cfg, w0, run, m - 1, run[i].state);
    }
  }

  /** What a callback must bring: a code, and a verified token for the nonce with a fresh auth_time. */
  ghost predicate GoodToken(e: Event, nonce: string, now: int)
    requires e.CallbackOIDC?
  {
    && e.code != "" && e.answer.IdToken? && e.answer.verifies && e.answer.nonce == nonce != ""
    && e.answer.authTime > 0 && -60 <= now / 1_000_000_000 - e.answer.authTime <= 60
  }

  /** Start i, of the state and the user of callback j and at most five minutes old, was not touched since. */
  ghost predicate StartFor(cfg: Config, w0: World, run: seq<Event>, i: nat, j: nat) {
    && i < j < |run| && run[i].StartOIDC? && run[j].CallbackOIDC? && run[i].state == run[j].state
    && OutcomeAt(cfg, w0, run, i) == Ok
    && WorldAt(cfg, w0, run, j).now - WorldAt(cfg, w0, run, i).now <= 300_000_000_000
    && Presented(WorldAt(cfg, w0, run, i), run[i]).Some? && Presented(WorldAt(cfg, w0, run, j), run[j]).Some?
    && Presented(WorldAt(cfg, w0, run, i), run[i]).value.userID
       == Presented(WorldAt(cfg, w0, run, j), run[j]).value.userID
    && forall p :: i < p < j ==> !Touches(cfg, w0, run, p, run[i].state)
  }

  /** A callback succeeds if and only if an untouched start of the same user, at most five minutes old, minted
      its state and the nonce of its good token. */
  lemma CallbackIff(cfg: Config, w0: World, run: seq<Event>, j: nat)
    requires Fresh(w0) && j < |run| && run[j].CallbackOIDC?
    ensures OutcomeAt(cfg, w0, run, j) == Ok <==>
      run[j].state != "" && exists i :: 0 <= i < j && StartFor(cfg, w0, run, i, j)
                                        && GoodToken(run[j], run[i].nonce, WorldAt(cfg, w0, run, j).now)
  {
    if OutcomeAt(cfg, w0, run, j) == Ok {
      var i := PendingHasStart(cfg, w0, run, j, run[j].state);
      assert PendingFrom(cfg, w0, run, i, j);
      assert StartFor(cfg, w0, run, i, j);
    }
    if run[j].state != "" {
      forall i | 0 <= i < j && StartFor(cfg, w0, run, i, j)
                 && GoodToken(run[j], run[i].nonce, WorldAt(cfg, w0, run, j).now)
        ensures OutcomeAt(cfg, w0, run, j) == Ok
      {
        StartStaysPending(cfg, w0, run, i, j);
      }
    }
  }
}
