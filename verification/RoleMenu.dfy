/** The menu of roles a user may switch to, and its agreement with the gate that guards the switch. */
module RoleMenu {
  import opened Options
  import opened Sessions

  datatype Connection = Connection(id: string, caption: string)

  /** The connection store as a handler meets it. */
  datatype ConnStore = NotWired | Wired(conns: seq<Connection>, listFails: bool)

  datatype AvailableRole = AvailableRole(kind: string, caption: string, cluster: string)

  const USER_ENTRY := AvailableRole("user", "User", "")
  const UI_ADMIN_ENTRY := AvailableRole("ui-admin", "UI Admin", "")

  // ---- what the menu should hold -----------------------------------------------------------

  /** What lookups by id find. */
  function Conns(store: ConnStore): seq<Connection> {
    if store.Wired? then store.conns else []
  }

  /** What listing yields. */
  function Listed(store: ConnStore): Option<seq<Connection>> {
    if store.Wired? && !store.listFails then Some(store.conns) else None
  }

  ghost predicate Connected(store: ConnStore, cluster: string) {
    Listed(store).Some? && exists conn :: conn in Listed(store).value && conn.id == cluster
  }

  function LabelIn(conns: seq<Connection>, cluster: string): string {
    if conns == [] then cluster
    else if conns[0].id == cluster then (if conns[0].caption == "" then cluster else conns[0].caption)
    else LabelIn(conns[1..], cluster)
  }

  function ClusterEntry(store: ConnStore, cluster: string): AvailableRole {
    AvailableRole("cluster-admin", "Cluster Admin: " + LabelIn(Conns(store), cluster), cluster)
  }

  /** A grant that names the cluster. */
  predicate NamesCluster(a: Assignment, cluster: string) {
    "cluster_admin" <= a.roleID && a.scope == "cluster:" + cluster && cluster != "" && cluster != "*"
  }

  predicate Wildcard(a: Assignment) {
    "cluster_admin" <= a.roleID && a.scope == "cluster:*"
  }

  function Grants(settings: Settings, c: Claims): seq<Assignment> {
    if settings.policy.Some? then AssignmentsFor(settings.policy.value, c.userID) else []
  }

  /** A cluster belongs on the menu when a grant names it, or when it is connected and the user has a
      wildcard grant or is a UI admin. */
  ghost predicate Offered(settings: Settings, store: ConnStore, c: Claims, cluster: string) {
    || (exists a :: a in Grants(settings, c) && NamesCluster(a, cluster))
    || (Connected(store, cluster) && (c.uiAdmin || exists a :: a in Grants(settings, c) && Wildcard(a)))
  }

  /** The clusters of a role list, in order. */
  function ClusterEntries(store: ConnStore, clusters: seq<string>): seq<AvailableRole> {
    seq(|clusters|, i requires 0 <= i < |clusters| => ClusterEntry(store, clusters[i]))
  }

  ghost predicate Distinct(s: seq<string>) {
    forall i, j :: 0 <= i < j < |s| ==> s[i] != s[j]
  }

  /** A canonical menu: user first, then each offered cluster once under its own label, then ui-admin
      last if the user is one. */
  ghost predicate Canonical(
    settings: Settings, store: ConnStore, c: Claims, menu: seq<AvailableRole>, clusters: seq<string>)
  {
    && menu == [USER_ENTRY] + ClusterEntries(store, clusters) + (if c.uiAdmin then [UI_ADMIN_ENTRY] else [])
    && Distinct(clusters)
    && forall cluster :: cluster in clusters <==> Offered(settings, store, c, cluster)
  }

  // ---- building it ------------------------------------------------------------------------------

  /** Appends an entry for each connection not listed yet. */
  method AppendConnections(
      ghost store: ConnStore, conns: seq<Connection>, roles: seq<AvailableRole>,
      ghost clusters: seq<string>, seen: set<string>)
    returns (roles': seq<AvailableRole>, ghost clusters': seq<string>, seen': set<string>)
    requires Listed(store) == Some(conns) && Distinct(clusters) && (forall x :: x in seen <==> x in clusters)
    requires roles == [USER_ENTRY] + ClusterEntries(store, clusters)
    ensures roles' == [USER_ENTRY] + ClusterEntries(store, clusters')
    ensures Distinct(clusters') && forall x :: x in seen' <==> x in clusters'
    ensures forall x :: x in clusters' <==> x in clusters || Connected(store, x)
    ensures roles <= roles' && forall x :: x in seen' <==> x in seen || Connected(store, x)
  {
    roles', clusters', seen' := roles, clusters, seen;
    for i := 0 to |conns|
      invariant roles' == [USER_ENTRY] + ClusterEntries(store, clusters')
      invariant Distinct(clusters') && forall x :: x in seen' <==> x in clusters'
      invariant roles <= roles' && forall x :: x in clusters ==> x in clusters'
      invariant forall x :: x in clusters' ==> x in clusters || Connected(store, x)
      invariant forall k :: 0 <= k < i ==> conns[k].id in clusters'
    {
      var conn := conns[i];
      var caption := conn.caption;
      if caption == "" { caption := conn.id; }
      if conn.id !in seen' {
        FirstLabel(conns, i);
        assert conn in Listed(store).value;
        roles' := roles' + [AvailableRole("cluster-admin", "Cluster Admin: " + caption, conn.id)];
        clusters' := clusters' + [conn.id];
        seen' := seen' + {conn.id};
      }
    }
  }

  /** The first connection with an id is the one that gives the label. */
  lemma {:induction false} FirstLabel(conns: seq<Connection>, i: nat)
    requires i < |conns| && forall k :: 0 <= k < i ==> conns[k].id != conns[i].id
    ensures LabelIn(conns, conns[i].id) == if conns[i].caption == "" then conns[i].id else conns[i].caption
  {
    if i > 0 {
      assert conns[0].id != conns[i].id;
      FirstLabel(conns[1..], i - 1);
    }
  }

  /** What one assignment adds: every connection for a wildcard, or the cluster it names. */
  method AppendGrant(store: ConnStore, a: Assignment,
      roles: seq<AvailableRole>, ghost clusters: seq<string>, seen: set<string>)
    returns (roles': seq<AvailableRole>, ghost clusters': seq<string>, seen': set<string>)
    requires Distinct(clusters) && (forall x :: x in seen <==> x in clusters)
    requires roles == [USER_ENTRY] + ClusterEntries(store, clusters)
    ensures roles' == [USER_ENTRY] + ClusterEntries(store, clusters') && roles <= roles'
    ensures Distinct(clusters') && forall x :: x in seen' <==> x in clusters'
    ensures forall x :: x in clusters' <==> x in clusters || OffersCluster(a, store, x)
  {
    roles', clusters', seen' := roles, clusters, seen;
    if "cluster_admin" <= a.roleID {
      forall x { WhatOneOffers(a, store, x); }
      if a.scope == "cluster:*" {
        if Listed(store).Some? {
          roles', clusters', seen' := AppendConnections(store, Listed(store).value, roles, clusters, seen);
        }
      } else if "cluster:" <= a.scope {
        var cid := a.scope[|"cluster:"|..];
        assert a.scope == "cluster:" + cid;
        if cid != "" && cid !in seen {
          var caption := LabelIn(Conns(store), cid);
          roles' := roles + [AvailableRole("cluster-admin", "Cluster Admin: " + caption, cid)];
          clusters' := clusters + [cid];
          seen' := seen + {cid};
        }
      }
    }
  }

  method ComputeAvailableRoles(settings: Settings, store: ConnStore, c: Claims)
    returns (roles: seq<AvailableRole>, ghost clusters: seq<string>)
    ensures c.userID == "" ==> roles == []
    ensures c.userID != "" ==> Canonical(settings, store, c, roles, clusters)
  {
    clusters := [];
    if c.userID == "" { return [], clusters; }
    var seen: set<string> := {};
    roles := [USER_ENTRY];
    assert roles == [USER_ENTRY] + ClusterEntries(store, clusters);
    if settings.policy.Some? {
      var assignments := AssignmentsFor(settings.policy.value, c.userID);
      for i := 0 to |assignments|
        invariant roles == [USER_ENTRY] + ClusterEntries(store, clusters)
        invariant Distinct(clusters) && forall x :: x in seen <==> x in clusters
        invariant forall x :: x in clusters <==> OfferedBy(assignments[..i], store, x)
      {
        forall x ensures OfferedBy(assignments[..i + 1], store, x)
                         <==> OfferedBy(assignments[..i], store, x) || OffersCluster(assignments[i], store, x)
        {
          OneMore(assignments, store, i, x);
        }
        roles, clusters, seen := AppendGrant(store, assignments[i], roles, clusters, seen);
      }
      assert assignments[..|assignments|] == assignments;
    }
    if c.uiAdmin && Listed(store).Some? {
      roles, clusters, seen := AppendConnections(store, Listed(store).value, roles, clusters, seen);
    }
    if c.uiAdmin {
      roles := roles + [UI_ADMIN_ENTRY];
    }
  }

  /** What the assignments alone put on the menu. */
  ghost predicate OfferedBy(assignments: seq<Assignment>, store: ConnStore, cluster: string) {
    exists a :: a in assignments && OffersCluster(a, store, cluster)
  }

  ghost predicate OffersCluster(a: Assignment, store: ConnStore, cluster: string) {
    NamesCluster(a, cluster) || (Wildcard(a) && Connected(store, cluster))
  }

  lemma OneMore(assignments: seq<Assignment>, store: ConnStore, i: nat, cluster: string)
    requires i < |assignments|
    ensures OfferedBy(assignments[..i + 1], store, cluster)
       <==> OfferedBy(assignments[..i], store, cluster) || OffersCluster(assignments[i], store, cluster)
  {
    assert assignments[..i + 1] == assignments[..i] + [assignments[i]];
  }

  /** Reading a scope: the wildcard, or the cluster after the colon. */
  lemma WhatOneOffers(a: Assignment, store: ConnStore, cluster: string)
    requires "cluster_admin" <= a.roleID
    ensures a.scope == "cluster:*" ==> (OffersCluster(a, store, cluster) <==> Connected(store, cluster))
    ensures a.scope != "cluster:*" && "cluster:" <= a.scope ==>
      (OffersCluster(a, store, cluster) <==> cluster == a.scope[|"cluster:"|..] && cluster != "")
    ensures !("cluster:" <= a.scope) ==> !OffersCluster(a, store, cluster)
  {
    assert ("cluster:" + cluster)[|"cluster:"|..] == cluster;
    assert "cluster:*" == "cluster:" + "*";
    if "cluster:" <= a.scope {
      assert a.scope == "cluster:" + a.scope[|"cluster:"|..];
    }
  }

  // ---- menu and gate ------------------------------------------------------------------------------

  ghost predicate Lists(menu: seq<AvailableRole>, kind: string, cluster: string) {
    exists e :: e in menu && e.kind == kind && e.cluster == cluster
  }

  lemma MenuEntries(
    settings: Settings, store: ConnStore, c: Claims, menu: seq<AvailableRole>, clusters: seq<string>, e: AvailableRole)
    requires Canonical(settings, store, c, menu, clusters)
    ensures e in menu <==>
      || e == USER_ENTRY
      || (c.uiAdmin && e == UI_ADMIN_ENTRY)
      || (e == ClusterEntry(store, e.cluster) && Offered(settings, store, c, e.cluster))
  {
    var entries := ClusterEntries(store, clusters);
    if e in entries {
      var i :| 0 <= i < |clusters| && entries[i] == e;
      assert clusters[i] in clusters;
    } else if Offered(settings, store, c, e.cluster) {
      var i :| 0 <= i < |clusters| && clusters[i] == e.cluster;
      assert entries[i] == ClusterEntry(store, e.cluster);
    }
  }

  lemma ListsCluster(
    settings: Settings, store: ConnStore, c: Claims, menu: seq<AvailableRole>, clusters: seq<string>, cluster: string)
    requires Canonical(settings, store, c, menu, clusters)
    ensures Lists(menu, "cluster-admin", cluster) <==> Offered(settings, store, c, cluster)
  {
    if Offered(settings, store, c, cluster) {
      MenuEntries(settings, store, c, menu, clusters, ClusterEntry(store, cluster));
    }
    if e :| e in menu && e.kind == "cluster-admin" && e.cluster == cluster {
      MenuEntries(settings, store, c, menu, clusters, e);
    }
  }

  /** The menu and the gate, written separately, agree: user is listed and accepted; ui-admin is listed
      exactly when the gate answers success or a demand to elevate; and with policy wired a cluster is
      listed exactly when the gate accepts it and it is connected or named by a grant. */
  lemma MenuMatchesGate(
    settings: Settings, store: ConnStore, now: int, c: Claims,
    menu: seq<AvailableRole>, clusters: seq<string>, cluster: string)
    requires Canonical(settings, store, c, menu, clusters) && c.userID != ""
    ensures Lists(menu, "user", "") && SwitchOutcome(settings, now, c, "user", "") == Ok
    ensures Lists(menu, "ui-admin", "") <==> SwitchOutcome(settings, now, c, "ui-admin", "") in {Ok, Locked}
    ensures settings.policy.Some? && cluster != "" ==>
      (Lists(menu, "cluster-admin", cluster) <==>
        && SwitchOutcome(settings, now, c, "cluster-admin", cluster) == Ok
        && (Connected(store, cluster) || exists a :: a in Grants(settings, c) && NamesCluster(a, cluster)))
  {
    MenuEntries(settings, store, c, menu, clusters, USER_ENTRY);
    MenuEntries(settings, store, c, menu, clusters, UI_ADMIN_ENTRY);
    if e :| e in menu && e.kind == "ui-admin" && e.cluster == "" {
      MenuEntries(settings, store, c, menu, clusters, e);
    }
    if settings.policy.Some? && cluster != "" {
      ListsCluster(settings, store, c, menu, clusters, cluster);
      GateMeaning(settings, now, c, cluster);
    }
  }

  lemma GateMeaning(settings: Settings, now: int, c: Claims, cluster: string)
    requires settings.policy.Some? && cluster != "" && c.userID != ""
    ensures SwitchOutcome(settings, now, c, "cluster-admin", cluster) == Ok <==>
      c.uiAdmin || exists a :: a in Grants(settings, c) && (Wildcard(a) || NamesCluster(a, cluster))
  {
    var assignments := Grants(settings, c);
    assert "cluster:*" == "cluster:" + "*";
    if a :| a in assignments && ClusterAdminAt(a, cluster) {
      assert cluster == "*" ==> Wildcard(a);
      assert Wildcard(a) || NamesCluster(a, cluster);
    }
    if a :| a in assignments && (Wildcard(a) || NamesCluster(a, cluster)) {
      assert ClusterAdminAt(a, cluster);
    }
  }

  /** For a connected cluster the two agree if and only if policy is wired or the user is a UI admin:
      without a policy the gate lets anyone through while the menu offers nothing. */
  lemma AgreementIff(
    settings: Settings, store: ConnStore, now: int, c: Claims,
    menu: seq<AvailableRole>, clusters: seq<string>, cluster: string)
    requires Canonical(settings, store, c, menu, clusters) && c.userID != ""
    requires cluster != "" && Connected(store, cluster)
    ensures (Lists(menu, "cluster-admin", cluster) <==> SwitchOutcome(settings, now, c, "cluster-admin", cluster) == Ok)
       <==> settings.policy.Some? || c.uiAdmin
  {
    MenuMatchesGate(settings, store, now, c, menu, clusters, cluster);
    ListsCluster(settings, store, c, menu, clusters, cluster);
  }

  /** Such a server: with no policy field, an ordinary user's menu is just "user", and the gate lets the
      user switch to the connected cluster all the same. */
  lemma GateOpenWithoutPolicy(c: Claims)
    requires c.userID != "" && !c.uiAdmin
    ensures var settings, store := Settings(None, None, None), Wired([Connection("c1", "Cluster")], false);
      && Connected(store, "c1")
      && Canonical(settings, store, c, [USER_ENTRY], [])
      && !Lists([USER_ENTRY], "cluster-admin", "c1")
      && forall now :: SwitchOutcome(settings, now, c, "cluster-admin", "c1") == Ok
  {
    var settings, store := Settings(None, None, None), Wired([Connection("c1", "Cluster")], false);
    assert Conns(store)[0].id == "c1";
    assert [USER_ENTRY] == [USER_ENTRY] + ClusterEntries(store, []) + [];
  }

  // ---- spelled out ------------------------------------------------------------------------------

  /** The text shown for a cluster: the label of the first connection with its id, or else the id. */
  ghost predicate KnownAs(store: ConnStore, cluster: string, text: string) {
    if exists i: nat :: FirstWith(store, i, cluster)
    then exists i: nat :: FirstWith(store, i, cluster)
                     && text == if store.conns[i].caption == "" then cluster else store.conns[i].caption
    else text == cluster
  }

  ghost predicate FirstWith(store: ConnStore, i: nat, cluster: string) {
    && store.Wired? && i < |store.conns| && store.conns[i].id == cluster
    && forall k :: 0 <= k < i ==> store.conns[k].id != cluster
  }

  /** Who is offered a cluster: the users with a grant that names it; and where the connections can be listed
      and it is among them, UI admins and the users with a wildcard grant. */
  ghost predicate OfferedTo(settings: Settings, store: ConnStore, c: Claims, cluster: string) {
    var granted :=
      if settings.policy.Some? && c.userID in settings.policy.value then settings.policy.value[c.userID] else [];
    || (cluster !in {"", "*"}
        && exists a :: a in granted && "cluster_admin" <= a.roleID && a.scope == "cluster:" + cluster)
    || (store.Wired? && !store.listFails && (exists conn :: conn in store.conns && conn.id == cluster)
        && (c.uiAdmin || exists a :: a in granted && "cluster_admin" <= a.roleID && a.scope == "cluster:*"))
  }

  lemma {:induction false} LabelFound(conns: seq<Connection>, cluster: string)
    ensures (forall conn :: conn in conns ==> conn.id != cluster) ==> LabelIn(conns, cluster) == cluster
  {
    if conns != [] { LabelFound(conns[1..], cluster); }
  }

  lemma LabelIs(store: ConnStore, cluster: string)
    ensures KnownAs(store, cluster, LabelIn(Conns(store), cluster))
  {
    if i: nat :| FirstWith(store, i, cluster) {
      FirstLabel(store.conns, i);
    } else {
      if conn :| conn in Conns(store) && conn.id == cluster { NoFirstWith(store, cluster, |store.conns|); }
      LabelFound(Conns(store), cluster);
    }
  }

  lemma {:induction false} NoFirstWith(store: ConnStore, cluster: string, n: nat)
    requires store.Wired? && n <= |store.conns| && forall i: nat :: !FirstWith(store, i, cluster)
    ensures forall k :: 0 <= k < n ==> store.conns[k].id != cluster
  {
    if n > 0 {
      NoFirstWith(store, cluster, n - 1);
      assert !FirstWith(store, n - 1, cluster);
    }
  }

  lemma OfferedIff(settings: Settings, store: ConnStore, c: Claims, cluster: string)
    ensures Offered(settings, store, c, cluster) <==> OfferedTo(settings, store, c, cluster)
  {
    var granted := Grants(settings, c);
    assert Connected(store, cluster) <==>
      store.Wired? && !store.listFails && exists conn :: conn in store.conns && conn.id == cluster;
    assert (exists a :: a in granted && NamesCluster(a, cluster)) <==>
      cluster !in {"", "*"}
      && exists a :: a in granted && "cluster_admin" <= a.roleID && a.scope == "cluster:" + cluster;
    assert (exists a :: a in granted && Wildcard(a)) <==>
      exists a :: a in granted && "cluster_admin" <= a.roleID && a.scope == "cluster:*";
  }

  /** The menu, entry by entry. */
  lemma MenuIs(settings: Settings, store: ConnStore, c: Claims, menu: seq<AvailableRole>, clusters: seq<string>)
    requires Canonical(settings, store, c, menu, clusters)
    ensures |menu| == 1 + |clusters| + (if c.uiAdmin then 1 else 0)
    ensures menu[0] == AvailableRole("user", "User", "")
    ensures c.uiAdmin ==> menu[|menu| - 1] == AvailableRole("ui-admin", "UI Admin", "")
    ensures forall i :: 0 <= i < |clusters| ==> ShowsCluster(store, menu[1 + i], clusters[i])
    ensures Distinct(clusters) && forall cluster :: cluster in clusters <==> OfferedTo(settings, store, c, cluster)
  {
    forall cluster ensures Offered(settings, store, c, cluster) <==> OfferedTo(settings, store, c, cluster) {
      OfferedIff(settings, store, c, cluster);
    }
    hide Offered, OfferedTo;
    forall i | 0 <= i < |clusters| ensures ShowsCluster(store, menu[1 + i], clusters[i]) {
      LabelIs(store, clusters[i]);
    }
  }

  ghost predicate ShowsCluster(store: ConnStore, e: AvailableRole, cluster: string) {
    && e.kind == "cluster-admin" && e.cluster == cluster
    && exists text :: KnownAs(store, cluster, text) && e.caption == "Cluster Admin: " + text
  }

  /** Order and repetition of assignments do not matter: menus for assignment lists with the same
      members hold the same entries. */
  lemma MenuIgnoresOrder(s1: Settings, s2: Settings, store: ConnStore, c: Claims,
                         m1: seq<AvailableRole>, c1: seq<string>, m2: seq<AvailableRole>, c2: seq<string>)
    requires Canonical(s1, store, c, m1, c1) && Canonical(s2, store, c, m2, c2)
    requires forall a :: a in Grants(s1, c) <==> a in Grants(s2, c)
    ensures forall e :: e in m1 <==> e in m2
    ensures |m1| == |m2|
  {
    forall e ensures e in m1 <==> e in m2 {
      MenuEntries(s1, store, c, m1, c1, e);
      MenuEntries(s2, store, c, m2, c2, e);
    }
    SameMembersSameLength(c1, c2);
  }

  lemma SameMembersSameLength(s: seq<string>, t: seq<string>)
    requires Distinct(s) && Distinct(t) && forall x :: x in s <==> x in t
    ensures |s| == |t|
  {
    SubsetNoLonger(s, t);
    SubsetNoLonger(t, s);
  }

  lemma {:induction false} SubsetNoLonger(s: seq<string>, t: seq<string>)
    requires Distinct(s) && forall x :: x in s ==> x in t
    ensures |s| <= |t|
  {
    if s != [] {
      assert s[0] in s;
      var i :| 0 <= i < |t| && t[i] == s[0];
      var rest := t[..i] + t[i + 1..];
      forall x | x in s[1..] ensures x in rest {
        assert x in s && x != s[0];
      }
      SubsetNoLonger(s[1..], rest);
    }
  }
}
