/** Properties of the reconciliation that relate several steps: each create
    step leaves nothing more to create for its kind (so running the importer
    twice creates nothing the second time), the role step makes the endpoint
    step possible, and the delete pass stays inside the configured workspaces. */
module Properties {
  import opened Strings
  import opened Store
  import opened Reconcile
  import opened Hydrate
  import opened Passes

  // ---------------------------------------------------------------------------
  // What the idempotence arguments assume of the stored data

  /** The active workspaces have names and ids usable as parts of composite keys. */
  ghost predicate KeyWorkspaces(db: Snapshot, names: seq<string>)
  {
    forall w :: w in ActiveWorkspaces(db, names) ==> KeyPart(At(w, WsName)) && KeyPart(At(w, WsId))
  }

  /** The active services have names, ids and workspace ids the route rewrite
      of `%` leaves alone. */
  ghost predicate PlainServices(db: Snapshot, names: seq<string>)
  {
    forall s :: s in Active(db, Services, names) ==>
      PlainPart(At(s, SvcName)) && PlainPart(At(s, SvcId)) && PlainPart(At(s, SvcWsId))
  }

  /** The active services have ids and workspace ids that survive the plugin
      rewrites as well. */
  ghost predicate CleanServices(db: Snapshot, names: seq<string>)
  {
    forall s :: s in Active(db, Services, names) ==> Clean(At(s, SvcId)) && Clean(At(s, SvcWsId))
  }

  /** The entity words of the derived names are clean. */
  lemma KindsClean()
    ensures Clean("svc") && Clean("consumer") && Clean("route")
    ensures PlainPart("svc") && PlainPart("consumer") && PlainPart("route")
  {
    CleanPlain("svc");
    CleanPlain("consumer");
    CleanPlain("route");
    CleanNoSeparator("svc");
    CleanNoSeparator("consumer");
    CleanNoSeparator("route");
  }

  lemma ActiveServiceClean(db: Snapshot, names: seq<string>, s: Row)
    requires CleanServices(db, names) && s in Active(db, Services, names)
    ensures Clean(At(s, SvcId)) && Clean(At(s, SvcWsId))
    ensures At(s, SvcWsId) in ActiveWorkspaceIds(db, names)
  {
  }

  lemma ActiveServicePlain(db: Snapshot, names: seq<string>, s: Row)
    requires PlainServices(db, names) && s in Active(db, Services, names)
    ensures PlainPart(At(s, SvcName)) && PlainPart(At(s, SvcId)) && PlainPart(At(s, SvcWsId))
    ensures At(s, SvcWsId) in ActiveWorkspaceIds(db, names)
  {
  }

  // ---------------------------------------------------------------------------
  // Composites of stored rows

  lemma ServiceKeysHas(rows: seq<Row>, r: Row)
    requires r in rows
    ensures Key2(At(r, SvcName), At(r, SvcWsId)) in ServiceKeys(rows)
  {
    var j :| 0 <= j < |rows| && rows[j] == r;
    assert ServiceKeys(rows)[j] == Key2(At(r, SvcName), At(r, SvcWsId));
  }

  lemma ConsumerKeysHas(rows: seq<Row>, r: Row)
    requires r in rows
    ensures Key2(At(r, ConsumerUsername), At(r, ConsumerWsId)) in ConsumerKeys(rows)
  {
    var j :| 0 <= j < |rows| && rows[j] == r;
    assert ConsumerKeys(rows)[j] == Key2(At(r, ConsumerUsername), At(r, ConsumerWsId));
  }

  lemma RouteKeysHas(rows: seq<Row>, r: Row)
    requires r in rows
    ensures Key3(At(r, RouteName), At(r, RouteServiceId), At(r, RouteWsId)) in RouteKeys(rows)
  {
    var j :| 0 <= j < |rows| && rows[j] == r;
    assert RouteKeys(rows)[j] == Key3(At(r, RouteName), At(r, RouteServiceId), At(r, RouteWsId));
  }

  lemma PluginKeysHas(rows: seq<Row>, r: Row)
    requires r in rows
    ensures Key3(At(r, PluginName), At(r, PluginServiceId), At(r, PluginWsId)) in PluginKeys(rows)
  {
    var j :| 0 <= j < |rows| && rows[j] == r;
    assert PluginKeys(rows)[j] == Key3(At(r, PluginName), At(r, PluginServiceId), At(r, PluginWsId));
  }

  /** Rows with fresh, distinct ids are appended by a bulk insert. */
  lemma InsertFresh(db: Snapshot, t: Table, rows: seq<Row>, gen: nat -> string, n: nat)
    requires KeyColumn(t) == 0 && FreshIds(gen, n, |rows|, Keys(Rows(db, t), 0))
    requires forall j :: 0 <= j < |rows| ==> At(rows[j], 0) == gen(n + j)
    ensures Rows(Inserted(db, t, rows), t) == Rows(db, t) + rows
  {
    forall j | 0 <= j < |rows| ensures At(rows[j], 0) !in Keys(Rows(db, t), 0) {
    }
    forall i, j | 0 <= i < j < |rows| ensures At(rows[i], 0) != At(rows[j], 0) {
    }
    PutAllFresh(Rows(db, t), 0, rows);
  }

  /** A bulk insert into a table other than the workspaces keeps the active
      workspaces, the scope of every table and the active rows of every other table. */
  lemma InsertedKeeps(db: Snapshot, t: Table, rows: seq<Row>, names: seq<string>)
    requires t != Workspaces
    ensures ActiveWorkspaces(Inserted(db, t, rows), names) == ActiveWorkspaces(db, names)
    ensures forall u :: Scope(Inserted(db, t, rows), u, names) == Scope(db, u, names)
    ensures forall u :: u != t ==> Active(Inserted(db, t, rows), u, names) == Active(db, u, names)
  {
    var db1 := Inserted(db, t, rows);
    assert Rows(db1, Workspaces) == Rows(db, Workspaces);
    forall u ensures Scope(db1, u, names) == Scope(db, u, names) {
    }
    forall u | u != t ensures Active(db1, u, names) == Active(db, u, names) {
      assert Rows(db1, u) == Rows(db, u);
    }
  }

  /** After a bulk insert of fresh rows that all belong to the configured
      workspaces, the active rows of the table are the old ones followed by the
      new ones, and nothing else active changes. */
  lemma InsertedActive(db: Snapshot, t: Table, rows: seq<Row>, gen: nat -> string, n: nat, names: seq<string>, col: nat)
    requires t != Workspaces && KeyColumn(t) == 0 && col == ScopeColumn(t)
    requires FreshIds(gen, n, |rows|, Keys(Rows(db, t), 0))
    requires forall j :: 0 <= j < |rows| ==> At(rows[j], 0) == gen(n + j)
    requires forall j :: 0 <= j < |rows| ==> At(rows[j], col) in Scope(db, t, names)
    ensures Active(Inserted(db, t, rows), t, names) == Active(db, t, names) + rows
    ensures ActiveWorkspaces(Inserted(db, t, rows), names) == ActiveWorkspaces(db, names)
    ensures forall u :: u != t ==> Active(Inserted(db, t, rows), u, names) == Active(db, u, names)
  {
    InsertedKeeps(db, t, rows, names);
    InsertFresh(db, t, rows, gen, n);
    var vals := Scope(db, t, names);
    SelectConcat(Rows(db, t), rows, col, vals);
    SelectEvery(rows, col, vals);
  }

  // ---------------------------------------------------------------------------
  // Workspaces

  /** A second run over the same configured pairs finds every workspace present:
      each absent pair was inserted under its name. */
  lemma WorkspacesIdempotent(db: Snapshot, required: seq<Row>)
    requires forall r :: r in required ==> 2 <= |r|
    ensures var rows := WorkspaceRows(required, Rows(db, Workspaces));
      WorkspacesAbsent(required, Rows(Inserted(db, Workspaces, rows), Workspaces)) == []
  {
    var ws := Rows(db, Workspaces);
    var rows := WorkspaceRows(required, ws);
    var after := Rows(Inserted(db, Workspaces, rows), Workspaces);
    assert after == PutAll(ws, WsName, rows);
    PutAllKeys(ws, WsName, rows);
    forall r | r in required ensures At(r, WsName) in Keys(after, WsName) {
      if At(r, WsName) !in Keys(ws, WsName) {
        NewWorkspaceRow(required, ws, r);
      }
    }
    RemoveNone(required, WsName, Keys(after, WsName));
  }

  /** An absent pair is inserted with its name. */
  lemma NewWorkspaceRow(required: seq<Row>, ws: seq<Row>, r: Row)
    requires r in required && 2 <= |r| && At(r, WsName) !in Keys(ws, WsName)
    ensures At(r, WsName) in Keys(WorkspaceRows(required, ws), WsName)
  {
    var raw := WorkspacesAbsent(required, ws);
    var rows := WorkspaceRows(required, ws);
    assert r in raw;
    var i :| 0 <= i < |raw| && raw[i] == r;
    assert rows[i] == r + [Meta];
    assert At(rows[i], WsName) == At(r, WsName);
    assert rows[i] in rows;
  }

  // ---------------------------------------------------------------------------
  // RBAC

  /** Once the absent roles are inserted with fresh ids, every active workspace has one. */
  lemma RolesIdempotent(db: Snapshot, p: Plan, gen: nat -> string, n: nat)
    requires FreshIds(gen, n, |RolesAbsent(db, p)|, Keys(Rows(db, RbacRoles), 0))
    ensures RolesAbsent(Inserted(db, RbacRoles, RolesToCreate(db, p, gen, n)), p) == []
  {
    var names := p.requiredNames;
    var rows := RolesToCreate(db, p, gen, n);
    var db1 := Inserted(db, RbacRoles, rows);
    RoleRowsFields(db, p, gen, n);
    InsertedActive(db, RbacRoles, rows, gen, n, names, RoleWsId);
    InsertFresh(db, RbacRoles, rows, gen, n);
    KeysConcat(Rows(db, RbacRoles), rows, RoleWsId);
    var ids := Keys(Rows(db1, RbacRoles), RoleWsId);
    forall w | w in ActiveWorkspaces(db1, names) ensures At(w, WsId) in ids {
      if At(w, WsId) !in Keys(Rows(db, RbacRoles), RoleWsId) {
        NewRoleRow(db, p, gen, n, w);
      }
    }
    RemoveNone(ActiveWorkspaces(db1, names), WsId, ids);
  }

  /** The new roles carry the drawn ids and belong to active workspaces. */
  lemma RoleRowsFields(db: Snapshot, p: Plan, gen: nat -> string, n: nat)
    ensures var rows := RolesToCreate(db, p, gen, n);
      (forall j :: 0 <= j < |rows| ==> At(rows[j], 0) == gen(n + j))
      && (forall j :: 0 <= j < |rows| ==> At(rows[j], RoleWsId) in Scope(db, RbacRoles, p.requiredNames))
  {
    var todo := RolesAbsent(db, p);
    var rows := RolesToCreate(db, p, gen, n);
    forall j | 0 <= j < |rows|
      ensures At(rows[j], 0) == gen(n + j) && At(rows[j], RoleWsId) in Scope(db, RbacRoles, p.requiredNames)
    {
      assert rows[j] == RoleRow(todo[j], gen(n + j));
      assert todo[j] in todo;
      ColumnHas(ActiveWorkspaces(db, p.requiredNames), WsId, At(todo[j], WsId));
    }
  }

  /** An active workspace without a role gets one. */
  lemma NewRoleRow(db: Snapshot, p: Plan, gen: nat -> string, n: nat, w: Row)
    requires w in ActiveWorkspaces(db, p.requiredNames)
    requires At(w, WsId) !in Keys(Rows(db, RbacRoles), RoleWsId)
    ensures exists j :: 0 <= j < |RolesToCreate(db, p, gen, n)| && At(RolesToCreate(db, p, gen, n)[j], RoleWsId) == At(w, WsId)
    ensures At(w, WsId) in Keys(RolesToCreate(db, p, gen, n), RoleWsId)
  {
    var todo := RolesAbsent(db, p);
    var rows := RolesToCreate(db, p, gen, n);
    assert w in todo;
    var j :| 0 <= j < |todo| && todo[j] == w;
    assert rows[j] == RoleRow(w, gen(n + j));
    assert rows[j] in rows;
  }

  /** After the role step with fresh ids, the endpoint step finds a role for
      every workspace that lacks an endpoint, so it does not stop. */
  lemma EndpointsAfterRoles(db: Snapshot, p: Plan, gen: nat -> string, n: nat)
    requires FreshIds(gen, n, |RolesAbsent(db, p)|, Keys(Rows(db, RbacRoles), 0))
    ensures RolesPresent(Inserted(db, RbacRoles, RolesToCreate(db, p, gen, n)), p)
    ensures EndpointsToCreate(Inserted(db, RbacRoles, RolesToCreate(db, p, gen, n)), p).Some?
  {
    var names := p.requiredNames;
    var rows := RolesToCreate(db, p, gen, n);
    var db1 := Inserted(db, RbacRoles, rows);
    RoleRowsFields(db, p, gen, n);
    InsertedActive(db, RbacRoles, rows, gen, n, names, RoleWsId);
    var roles := Active(db1, RbacRoles, names);
    var todo := EndpointsAbsent(db1, p);
    forall i | 0 <= i < |todo| ensures RoleFor(roles, At(todo[i], WsId)).Some? {
      assert todo[i] in todo;
      RoleOfActive(db, p, gen, n, todo[i], roles);
    }
  }

  /** An active workspace has an active role once the role step has run. */
  lemma RoleOfActive(db: Snapshot, p: Plan, gen: nat -> string, n: nat, w: Row, roles: seq<Row>)
    requires w in ActiveWorkspaces(db, p.requiredNames)
    requires roles == Active(db, RbacRoles, p.requiredNames) + RolesToCreate(db, p, gen, n)
    ensures RoleFor(roles, At(w, WsId)).Some?
  {
    var before := Active(db, RbacRoles, p.requiredNames);
    var rows := RolesToCreate(db, p, gen, n);
    if At(w, WsId) in Keys(Rows(db, RbacRoles), RoleWsId) {
      var r := StoredRoleActive(db, p.requiredNames, w);
      RoleInAppended(before, rows, r, At(w, WsId));
    } else {
      NewRoleRow(db, p, gen, n, w);
      var j :| 0 <= j < |rows| && At(rows[j], RoleWsId) == At(w, WsId);
      assert rows[j] in rows;
      RoleInAppended(before, rows, rows[j], At(w, WsId));
    }
  }

  /** A stored role of an active workspace is an active role. */
  lemma StoredRoleActive(db: Snapshot, names: seq<string>, w: Row) returns (r: Row)
    requires w in ActiveWorkspaces(db, names)
    requires At(w, WsId) in Keys(Rows(db, RbacRoles), RoleWsId)
    ensures r in Active(db, RbacRoles, names) && At(r, RoleWsId) == At(w, WsId)
  {
    r :| r in Rows(db, RbacRoles) && At(r, RoleWsId) == At(w, WsId);
    ColumnHas(ActiveWorkspaces(db, names), WsId, At(w, WsId));
  }

  /** Some role of a workspace among the old or the new roles is found by lookup. */
  lemma RoleInAppended(before: seq<Row>, rows: seq<Row>, r: Row, ws: string)
    requires (r in before || r in rows) && At(r, RoleWsId) == ws
    ensures RoleFor(before + rows, ws).Some?
  {
    var roles := before + rows;
    if r in before {
      var k :| 0 <= k < |before| && before[k] == r;
      assert roles[k] == r;
    } else {
      var k :| 0 <= k < |rows| && rows[k] == r;
      assert roles[|before| + k] == r;
    }
  }

  /** The `i`-th new role belongs to an active workspace that had no stored
      role: a fresh id, the super-admin name, a comment naming the workspace,
      `is_default = false` and the workspace id. */
  lemma RolesToCreateRow(db: Snapshot, p: Plan, gen: nat -> string, n: nat, i: nat)
    requires i < |RolesToCreate(db, p, gen, n)|
    ensures i < |RolesAbsent(db, p)|
    ensures var w := RolesAbsent(db, p)[i];
      w in ActiveWorkspaces(db, p.requiredNames)
      && At(w, WsId) !in Keys(Rows(db, RbacRoles), RoleWsId)
      && RolesToCreate(db, p, gen, n)[i] ==
           [gen(n + i), "workspace-super-admin",
            "Full access to all endpoints in the " + At(w, WsName) + " workspace", "false", At(w, WsId)]
  {
    var todo := RolesAbsent(db, p);
    assert todo[i] in todo;
  }

  /** The `i`-th new endpoint belongs to an active workspace that had no stored
      endpoint: the id of an active role of that workspace, the workspace name,
      and the fixed `*`, `15`, `false`. */
  lemma EndpointsToCreateRow(db: Snapshot, p: Plan, rows: seq<Row>, i: nat)
    requires EndpointsToCreate(db, p) == Some(rows) && i < |rows|
    ensures i < |EndpointsAbsent(db, p)|
    ensures var w := EndpointsAbsent(db, p)[i];
      w in ActiveWorkspaces(db, p.requiredNames)
      && At(w, WsName) !in Keys(Rows(db, RbacRoleEndpoints), EndpointWorkspace)
      && |rows[i]| == 5 && rows[i][1] == At(w, WsName) && rows[i][2..] == ["*", "15", "false"]
      && exists r :: r in Active(db, RbacRoles, p.requiredNames)
           && At(r, RoleWsId) == At(w, WsId) && At(r, RoleId) == rows[i][0]
  {
    var roles := Active(db, RbacRoles, p.requiredNames);
    EndpointRowAt(db, p, rows, i);
    var w := EndpointsAbsent(db, p)[i];
    EndpointAbsentAt(db, p, i);
    var id := RoleFor(roles, At(w, WsId)).value;
    EndpointFields(rows[i], id, At(w, WsName));
    RoleOf(roles, At(w, WsId), id);
  }

  /** The `i`-th new endpoint is the endpoint of the `i`-th workspace lacking one. */
  lemma EndpointRowAt(db: Snapshot, p: Plan, rows: seq<Row>, i: nat)
    requires EndpointsToCreate(db, p) == Some(rows) && i < |rows|
    ensures i < |EndpointsAbsent(db, p)|
    ensures var w := EndpointsAbsent(db, p)[i]; var roles := Active(db, RbacRoles, p.requiredNames);
      RoleFor(roles, At(w, WsId)).Some? && rows[i] == [RoleFor(roles, At(w, WsId)).value, At(w, WsName), "*", "15", "false"]
  {
    assert RolesPresent(db, p);
  }

  /** A workspace lacking an endpoint is active and has no stored endpoint. */
  lemma EndpointAbsentAt(db: Snapshot, p: Plan, i: nat)
    requires i < |EndpointsAbsent(db, p)|
    ensures var w := EndpointsAbsent(db, p)[i];
      w in ActiveWorkspaces(db, p.requiredNames) && At(w, WsName) !in Keys(Rows(db, RbacRoleEndpoints), EndpointWorkspace)
  {
    var todo := EndpointsAbsent(db, p);
    assert todo[i] in todo;
  }

  lemma EndpointFields(row: Row, id: string, name: string)
    requires row == [id, name, "*", "15", "false"]
    ensures |row| == 5 && row[0] == id && row[1] == name && row[2..] == ["*", "15", "false"]
  {
  }

  lemma RoleOf(roles: seq<Row>, ws: string, id: string)
    requires RoleFor(roles, ws) == Some(id)
    ensures exists r :: r in roles && At(r, RoleWsId) == ws && At(r, RoleId) == id
  {
    var k :| 0 <= k < |roles| && At(roles[k], RoleWsId) == ws && At(roles[k], RoleId) == id;
    assert roles[k] in roles;
  }

  // ---------------------------------------------------------------------------
  // Services

  /** A service row read back: its columns hold the id, the two pieces of its
      composite, and it has the table's width. */
  lemma ServiceRowFields(name: string, ws: string, id: string, d: SvcDefaults)
    requires KeyPart(name) && KeyPart(ws) && ',' !in id && DefaultsClean(d)
    ensures 2 <= |Split(Key2(name, ws), '^')|
    ensures var r := ServiceRow(Key2(name, ws), id, d);
      At(r, SvcId) == id && At(r, SvcName) == name && At(r, SvcWsId) == ws && |r| == |Columns(Services)|
  {
    ServiceRowShape(name, ws, id, d);
  }

  /** A wanted service composite, hydrated with a clean id, gives back that
      composite and an active workspace. */
  lemma ServiceRowAt(db: Snapshot, p: Plan, x: string, id: string)
    requires x in RequiredServiceNames(db, p)
    requires KeyWorkspaces(db, p.requiredNames) && DefaultsClean(p.defaults) && ',' !in id
    ensures 2 <= |Split(x, '^')|
    ensures var r := ServiceRow(x, id, p.defaults);
      At(r, SvcId) == id && At(r, SvcWsId) in ActiveWorkspaceIds(db, p.requiredNames)
      && Key2(At(r, SvcName), At(r, SvcWsId)) == x && |r| == |Columns(Services)|
  {
    RequiredServiceNamesAre(db, p, x);
    var w, k :| w in ActiveWorkspaces(db, p.requiredNames) && 0 <= k < p.services &&
      x == Key2(DerivedName(At(w, WsName), "svc", k), At(w, WsId));
    var name := DerivedName(At(w, WsName), "svc", k);
    KindsClean();
    DerivedNameParts(At(w, WsName), "svc", k);
    ServiceRowFields(name, At(w, WsId), id, p.defaults);
    ColumnHas(ActiveWorkspaces(db, p.requiredNames), WsId, At(w, WsId));
  }

  /** The `i`-th new service row: its id, its workspace (an active one) and its
      composite, which is the `i`-th missing one. */
  lemma ServiceRowOf(db: Snapshot, p: Plan, gen: nat -> string, n: nat, i: nat)
    requires KeyWorkspaces(db, p.requiredNames) && DefaultsClean(p.defaults)
    requires i < |ServicesMissing(db, p)| && Clean(gen(n + i))
    ensures var r := ServicesToCreate(db, p, gen, n)[i];
      At(r, SvcId) == gen(n + i) && At(r, SvcWsId) in ActiveWorkspaceIds(db, p.requiredNames)
      && Key2(At(r, SvcName), At(r, SvcWsId)) == ServicesMissing(db, p)[i]
      && |r| == |Columns(Services)|
  {
    var m := ServicesMissing(db, p);
    assert m[i] in m;
    ServiceRowAt(db, p, m[i], gen(n + i));
    ServicesToCreateAt(db, p, gen, n, i);
  }

  lemma ServicesToCreateAt(db: Snapshot, p: Plan, gen: nat -> string, n: nat, i: nat)
    requires i < |ServicesMissing(db, p)|
    ensures Splits(ServicesMissing(db, p), 2)
    ensures ServicesToCreate(db, p, gen, n)[i] == ServiceRow(ServicesMissing(db, p)[i], gen(n + i), p.defaults)
  {
    MissingSplit(db, p);
    ServiceRowsAt(ServicesMissing(db, p), gen, n, p.defaults, i);
  }

  lemma ServiceRowsAt(m: seq<string>, gen: nat -> string, start: nat, d: SvcDefaults, i: nat)
    requires Splits(m, 2) && i < |m|
    ensures ServiceRows(m, gen, start, d)[i] == ServiceRow(m[i], gen(start + i), d)
  {
  }

  /** The composites of the new service rows are the missing composites, in order. */
  lemma ServiceKeysOfNew(db: Snapshot, p: Plan, gen: nat -> string, n: nat)
    requires KeyWorkspaces(db, p.requiredNames) && DefaultsClean(p.defaults)
    requires FreshIds(gen, n, |ServicesMissing(db, p)|, Keys(Rows(db, Services), SvcId))
    ensures var rows := ServicesToCreate(db, p, gen, n);
      ServiceKeys(rows) == ServicesMissing(db, p)
      && (forall j :: 0 <= j < |rows| ==> At(rows[j], SvcId) == gen(n + j))
      && (forall j :: 0 <= j < |rows| ==> At(rows[j], SvcWsId) in Scope(db, Services, p.requiredNames))
  {
    var rows := ServicesToCreate(db, p, gen, n);
    forall i | 0 <= i < |rows|
      ensures At(rows[i], SvcId) == gen(n + i) && At(rows[i], SvcWsId) in Scope(db, Services, p.requiredNames)
      ensures ServiceKeys(rows)[i] == ServicesMissing(db, p)[i]
    {
      ServiceRowOf(db, p, gen, n, i);
    }
  }

  /** Once the missing services are inserted, no service is missing any more. */
  lemma ServicesIdempotent(db: Snapshot, p: Plan, gen: nat -> string, n: nat)
    requires KeyWorkspaces(db, p.requiredNames) && DefaultsClean(p.defaults)
    requires FreshIds(gen, n, |ServicesMissing(db, p)|, Keys(Rows(db, Services), SvcId))
    ensures ServicesMissing(Inserted(db, Services, ServicesToCreate(db, p, gen, n)), p) == []
  {
    var rows := ServicesToCreate(db, p, gen, n);
    ServiceKeysOfNew(db, p, gen, n);
    InsertedActive(db, Services, rows, gen, n, p.requiredNames, SvcWsId);
    var before := Active(db, Services, p.requiredNames);
    ServiceKeysConcat(before, rows);
    MissingFilled(RequiredServiceNames(db, p), ServiceKeys(before));
  }

  lemma ServiceKeysConcat(a: seq<Row>, b: seq<Row>)
    ensures ServiceKeys(a + b) == ServiceKeys(a) + ServiceKeys(b)
  {
  }

  // ---------------------------------------------------------------------------
  // Consumers

  lemma ConsumerRowFields(name: string, ws: string, id: string)
    requires KeyPart(name) && KeyPart(ws) && ',' !in id
    ensures 2 <= |Split(Key2(name, ws), '^')|
    ensures var r := ConsumerRow(Key2(name, ws), id);
      At(r, 0) == id && At(r, ConsumerUsername) == name && At(r, ConsumerWsId) == ws && |r| == |Columns(Consumers)|
  {
    ConsumerRowShape(name, ws, id);
  }

  /** A wanted consumer composite, hydrated with a clean id, gives back that
      composite and an active workspace. */
  lemma ConsumerRowAt(db: Snapshot, p: Plan, x: string, id: string)
    requires x in RequiredConsumerNames(db, p)
    requires KeyWorkspaces(db, p.requiredNames) && ',' !in id
    ensures 2 <= |Split(x, '^')|
    ensures var r := ConsumerRow(x, id);
      At(r, 0) == id && At(r, ConsumerWsId) in ActiveWorkspaceIds(db, p.requiredNames)
      && Key2(At(r, ConsumerUsername), At(r, ConsumerWsId)) == x && |r| == |Columns(Consumers)|
  {
    RequiredConsumerNamesAre(db, p, x);
    var w, k :| w in ActiveWorkspaces(db, p.requiredNames) && 0 <= k < p.consumers &&
      x == Key2(DerivedName(At(w, WsName), "consumer", k), At(w, WsId));
    KindsClean();
    DerivedNameParts(At(w, WsName), "consumer", k);
    ConsumerRowFields(DerivedName(At(w, WsName), "consumer", k), At(w, WsId), id);
    ColumnHas(ActiveWorkspaces(db, p.requiredNames), WsId, At(w, WsId));
  }

  lemma ConsumerRowsAt(m: seq<string>, gen: nat -> string, start: nat, i: nat)
    requires Splits(m, 2) && i < |m|
    ensures ConsumerRows(m, gen, start)[i] == ConsumerRow(m[i], gen(start + i))
  {
  }

  lemma ConsumersToCreateAt(db: Snapshot, p: Plan, gen: nat -> string, n: nat, i: nat)
    requires i < |ConsumersMissing(db, p)|
    ensures Splits(ConsumersMissing(db, p), 2)
    ensures ConsumersToCreate(db, p, gen, n)[i] == ConsumerRow(ConsumersMissing(db, p)[i], gen(n + i))
  {
    MissingSplit(db, p);
    ConsumerRowsAt(ConsumersMissing(db, p), gen, n, i);
  }

  lemma ConsumerRowOf(db: Snapshot, p: Plan, gen: nat -> string, n: nat, i: nat)
    requires KeyWorkspaces(db, p.requiredNames)
    requires i < |ConsumersMissing(db, p)| && Clean(gen(n + i))
    ensures var r := ConsumersToCreate(db, p, gen, n)[i];
      At(r, 0) == gen(n + i) && At(r, ConsumerWsId) in ActiveWorkspaceIds(db, p.requiredNames)
      && Key2(At(r, ConsumerUsername), At(r, ConsumerWsId)) == ConsumersMissing(db, p)[i]
      && |r| == |Columns(Consumers)|
  {
    var m := ConsumersMissing(db, p);
    assert m[i] in m;
    ConsumerRowAt(db, p, m[i], gen(n + i));
    ConsumersToCreateAt(db, p, gen, n, i);
  }

  /** The composites of the new consumer rows are the missing composites, in order. */
  lemma ConsumerKeysOfNew(db: Snapshot, p: Plan, gen: nat -> string, n: nat)
    requires KeyWorkspaces(db, p.requiredNames)
    requires FreshIds(gen, n, |ConsumersMissing(db, p)|, Keys(Rows(db, Consumers), 0))
    ensures var rows := ConsumersToCreate(db, p, gen, n);
      ConsumerKeys(rows) == ConsumersMissing(db, p)
      && (forall j :: 0 <= j < |rows| ==> At(rows[j], 0) == gen(n + j))
      && (forall j :: 0 <= j < |rows| ==> At(rows[j], ConsumerWsId) in Scope(db, Consumers, p.requiredNames))
  {
    var rows := ConsumersToCreate(db, p, gen, n);
    forall i | 0 <= i < |rows|
      ensures At(rows[i], 0) == gen(n + i) && At(rows[i], ConsumerWsId) in Scope(db, Consumers, p.requiredNames)
      ensures ConsumerKeys(rows)[i] == ConsumersMissing(db, p)[i]
    {
      ConsumerRowOf(db, p, gen, n, i);
    }
  }

  lemma ConsumerKeysConcat(a: seq<Row>, b: seq<Row>)
    ensures ConsumerKeys(a + b) == ConsumerKeys(a) + ConsumerKeys(b)
  {
  }

  /** Once the missing consumers are inserted, no consumer is missing any more. */
  lemma ConsumersIdempotent(db: Snapshot, p: Plan, gen: nat -> string, n: nat)
    requires KeyWorkspaces(db, p.requiredNames)
    requires FreshIds(gen, n, |ConsumersMissing(db, p)|, Keys(Rows(db, Consumers), 0))
    ensures ConsumersMissing(Inserted(db, Consumers, ConsumersToCreate(db, p, gen, n)), p) == []
  {
    var rows := ConsumersToCreate(db, p, gen, n);
    ConsumerKeysOfNew(db, p, gen, n);
    InsertedActive(db, Consumers, rows, gen, n, p.requiredNames, ConsumerWsId);
    var before := Active(db, Consumers, p.requiredNames);
    ConsumerKeysConcat(before, rows);
    MissingFilled(RequiredConsumerNames(db, p), ConsumerKeys(before));
  }

  // ---------------------------------------------------------------------------
  // Routes

  lemma RouteRowFields(name: string, svc: string, ws: string, id: string)
    requires PlainPart(name) && PlainPart(svc) && PlainPart(ws) && ',' !in id && '%' !in id
    ensures 3 <= |Split(Key3(name, svc, ws), '^')|
    ensures var r := RouteRow(Key3(name, svc, ws), id);
      At(r, 0) == id && At(r, RouteName) == name && At(r, RouteServiceId) == svc && At(r, RouteWsId) == ws
      && |r| == |Columns(Routes)|
  {
    RouteRowShape(name, svc, ws, id);
  }

  /** A wanted route composite, hydrated with a clean id, gives back that
      composite and an active workspace. */
  lemma RouteRowAt(db: Snapshot, p: Plan, x: string, id: string)
    requires x in RequiredRouteNames(db, p)
    requires PlainServices(db, p.requiredNames) && ',' !in id && '%' !in id
    ensures 3 <= |Split(x, '^')|
    ensures var r := RouteRow(x, id);
      At(r, 0) == id && At(r, RouteWsId) in ActiveWorkspaceIds(db, p.requiredNames)
      && Key3(At(r, RouteName), At(r, RouteServiceId), At(r, RouteWsId)) == x && |r| == |Columns(Routes)|
  {
    RequiredRouteNamesAre(db, p, x);
    var s, k :| s in Active(db, Services, p.requiredNames) && 0 <= k < p.routes &&
      x == Key3(DerivedName(At(s, SvcName), "route", k), At(s, SvcId), At(s, SvcWsId));
    ActiveServicePlain(db, p.requiredNames, s);
    KindsClean();
    DerivedNameParts(At(s, SvcName), "route", k);
    RouteRowFields(DerivedName(At(s, SvcName), "route", k), At(s, SvcId), At(s, SvcWsId), id);
  }

  lemma RouteRowsAt(m: seq<string>, gen: nat -> string, start: nat, i: nat)
    requires Splits(m, 3) && i < |m|
    ensures RouteRows(m, gen, start)[i] == RouteRow(m[i], gen(start + i))
  {
  }

  lemma RoutesToCreateAt(db: Snapshot, p: Plan, gen: nat -> string, n: nat, i: nat)
    requires i < |RoutesMissing(db, p)|
    ensures Splits(RoutesMissing(db, p), 3)
    ensures RoutesToCreate(db, p, gen, n)[i] == RouteRow(RoutesMissing(db, p)[i], gen(n + i))
  {
    MissingSplit(db, p);
    RouteRowsAt(RoutesMissing(db, p), gen, n, i);
  }

  lemma RouteRowOf(db: Snapshot, p: Plan, gen: nat -> string, n: nat, i: nat)
    requires PlainServices(db, p.requiredNames)
    requires i < |RoutesMissing(db, p)| && Clean(gen(n + i))
    ensures var r := RoutesToCreate(db, p, gen, n)[i];
      At(r, 0) == gen(n + i) && At(r, RouteWsId) in ActiveWorkspaceIds(db, p.requiredNames)
      && Key3(At(r, RouteName), At(r, RouteServiceId), At(r, RouteWsId)) == RoutesMissing(db, p)[i]
      && |r| == |Columns(Routes)|
  {
    var m := RoutesMissing(db, p);
    assert m[i] in m;
    RouteRowAt(db, p, m[i], gen(n + i));
    RoutesToCreateAt(db, p, gen, n, i);
  }

  /** The composites of the new route rows are the missing composites, in order. */
  lemma RouteKeysOfNew(db: Snapshot, p: Plan, gen: nat -> string, n: nat)
    requires PlainServices(db, p.requiredNames)
    requires FreshIds(gen, n, |RoutesMissing(db, p)|, Keys(Rows(db, Routes), 0))
    ensures var rows := RoutesToCreate(db, p, gen, n);
      RouteKeys(rows) == RoutesMissing(db, p)
      && (forall j :: 0 <= j < |rows| ==> At(rows[j], 0) == gen(n + j))
      && (forall j :: 0 <= j < |rows| ==> At(rows[j], RouteWsId) in Scope(db, Routes, p.requiredNames))
  {
    var rows := RoutesToCreate(db, p, gen, n);
    forall i | 0 <= i < |rows|
      ensures At(rows[i], 0) == gen(n + i) && At(rows[i], RouteWsId) in Scope(db, Routes, p.requiredNames)
      ensures RouteKeys(rows)[i] == RoutesMissing(db, p)[i]
    {
      RouteRowOf(db, p, gen, n, i);
    }
  }

  lemma RouteKeysConcat(a: seq<Row>, b: seq<Row>)
    ensures RouteKeys(a + b) == RouteKeys(a) + RouteKeys(b)
  {
  }

  /** Once the missing routes are inserted, no route is missing any more. */
  lemma RoutesIdempotent(db: Snapshot, p: Plan, gen: nat -> string, n: nat)
    requires PlainServices(db, p.requiredNames)
    requires FreshIds(gen, n, |RoutesMissing(db, p)|, Keys(Rows(db, Routes), 0))
    ensures RoutesMissing(Inserted(db, Routes, RoutesToCreate(db, p, gen, n)), p) == []
  {
    var rows := RoutesToCreate(db, p, gen, n);
    RouteKeysOfNew(db, p, gen, n);
    InsertedActive(db, Routes, rows, gen, n, p.requiredNames, RouteWsId);
    assert Active(Inserted(db, Routes, rows), Services, p.requiredNames) == Active(db, Services, p.requiredNames);
    var before := Active(db, Routes, p.requiredNames);
    RouteKeysConcat(before, rows);
    MissingFilled(RequiredRouteNames(db, p), RouteKeys(before));
  }

  // ---------------------------------------------------------------------------
  // Plugins

  /** The configured plugin names are usable inside composite keys. */
  ghost predicate CleanPlugins(plugins: seq<string>)
  {
    forall i :: 0 <= i < |plugins| ==> Clean(plugins[i])
  }

  lemma PluginRowFields(name: string, svc: string, ws: string, id: string, config: string)
    requires Clean(name) && Clean(svc) && Clean(ws) && Clean(id)
    ensures 3 <= |Split(Key3(name, svc, ws), '^')|
    ensures var r := PluginRow(Key3(name, svc, ws), id, config);
      At(r, 0) == id && At(r, PluginName) == name && At(r, PluginServiceId) == svc && At(r, PluginWsId) == ws
      && |r| == |Columns(Plugins)|
  {
    PluginRowShape(name, svc, ws, id, config);
  }

  /** A wanted plugin composite, hydrated with a clean id, gives back that
      composite and an active workspace. */
  lemma PluginRowAt(db: Snapshot, p: Plan, x: string, id: string, config: string)
    requires x in RequiredPluginNames(db, p)
    requires CleanServices(db, p.requiredNames) && CleanPlugins(p.plugins) && Clean(id)
    ensures 3 <= |Split(x, '^')|
    ensures var r := PluginRow(x, id, config);
      At(r, 0) == id && At(r, PluginWsId) in ActiveWorkspaceIds(db, p.requiredNames)
      && Key3(At(r, PluginName), At(r, PluginServiceId), At(r, PluginWsId)) == x && |r| == |Columns(Plugins)|
  {
    RequiredPluginNamesAre(db, p, x);
    var s, k :| s in Active(db, Services, p.requiredNames) && 0 <= k < |p.plugins| &&
      x == Key3(p.plugins[k], At(s, SvcId), At(s, SvcWsId));
    ActiveServiceClean(db, p.requiredNames, s);
    PluginRowFields(p.plugins[k], At(s, SvcId), At(s, SvcWsId), id, config);
  }

  lemma PluginRowsAt(m: seq<string>, gen: nat -> string, start: nat, configs: map<string, string>, i: nat)
    requires Splits(m, 3) && Configured(m, configs) && i < |m|
    ensures PluginOf(m[i]) in configs
    ensures PluginRows(m, gen, start, configs)[i] == PluginRow(m[i], gen(start + i), configs[PluginOf(m[i])])
  {
  }

  lemma PluginsToCreateAt(db: Snapshot, p: Plan, gen: nat -> string, n: nat, rows: seq<Row>, i: nat)
    requires PluginsToCreate(db, p, gen, n) == Some(rows) && i < |rows|
    ensures i < |PluginsMissing(db, p)| && Splits(PluginsMissing(db, p), 3)
    ensures PluginOf(PluginsMissing(db, p)[i]) in p.configs
    ensures rows[i] == PluginRow(PluginsMissing(db, p)[i], gen(n + i), p.configs[PluginOf(PluginsMissing(db, p)[i])])
  {
    MissingSplit(db, p);
    PluginRowsAt(PluginsMissing(db, p), gen, n, p.configs, i);
  }

  lemma PluginRowOf(db: Snapshot, p: Plan, gen: nat -> string, n: nat, rows: seq<Row>, i: nat)
    requires CleanServices(db, p.requiredNames) && CleanPlugins(p.plugins)
    requires PluginsToCreate(db, p, gen, n) == Some(rows) && i < |rows| && Clean(gen(n + i))
    ensures i < |PluginsMissing(db, p)|
    ensures At(rows[i], 0) == gen(n + i) && At(rows[i], PluginWsId) in ActiveWorkspaceIds(db, p.requiredNames)
    ensures Key3(At(rows[i], PluginName), At(rows[i], PluginServiceId), At(rows[i], PluginWsId)) == PluginsMissing(db, p)[i]
    ensures |rows[i]| == |Columns(Plugins)|
  {
    PluginsToCreateAt(db, p, gen, n, rows, i);
    var m := PluginsMissing(db, p);
    assert m[i] in m;
    PluginRowAt(db, p, m[i], gen(n + i), p.configs[PluginOf(m[i])]);
  }

  /** The composites of the new plugin rows are the missing composites, in order. */
  lemma PluginKeysOfNew(db: Snapshot, p: Plan, gen: nat -> string, n: nat, rows: seq<Row>)
    requires CleanServices(db, p.requiredNames) && CleanPlugins(p.plugins)
    requires PluginsToCreate(db, p, gen, n) == Some(rows)
    requires FreshIds(gen, n, |rows|, Keys(Rows(db, Plugins), 0))
    ensures PluginKeys(rows) == PluginsMissing(db, p)
    ensures forall j :: 0 <= j < |rows| ==> At(rows[j], 0) == gen(n + j)
    ensures forall j :: 0 <= j < |rows| ==> At(rows[j], PluginWsId) in Scope(db, Plugins, p.requiredNames)
  {
    forall i | 0 <= i < |rows|
      ensures At(rows[i], 0) == gen(n + i) && At(rows[i], PluginWsId) in Scope(db, Plugins, p.requiredNames)
      ensures PluginKeys(rows)[i] == PluginsMissing(db, p)[i]
    {
      PluginRowOf(db, p, gen, n, rows, i);
    }
  }

  lemma PluginKeysConcat(a: seq<Row>, b: seq<Row>)
    ensures PluginKeys(a + b) == PluginKeys(a) + PluginKeys(b)
  {
  }

  /** Once the missing plugins are inserted, no plugin is missing any more. */
  lemma PluginsIdempotent(db: Snapshot, p: Plan, gen: nat -> string, n: nat, rows: seq<Row>)
    requires CleanServices(db, p.requiredNames) && CleanPlugins(p.plugins)
    requires PluginsToCreate(db, p, gen, n) == Some(rows)
    requires FreshIds(gen, n, |rows|, Keys(Rows(db, Plugins), 0))
    ensures PluginsMissing(Inserted(db, Plugins, rows), p) == []
  {
    PluginKeysOfNew(db, p, gen, n, rows);
    InsertedActive(db, Plugins, rows, gen, n, p.requiredNames, PluginWsId);
    assert Active(Inserted(db, Plugins, rows), Services, p.requiredNames) == Active(db, Services, p.requiredNames);
    var before := Active(db, Plugins, p.requiredNames);
    PluginKeysConcat(before, rows);
    MissingFilled(RequiredPluginNames(db, p), PluginKeys(before));
  }

  // ---------------------------------------------------------------------------
  // Role endpoints

  /** The `i`-th new endpoint is that of the `i`-th workspace lacking one. */
  lemma EndpointsToCreateAt(db: Snapshot, p: Plan, rows: seq<Row>, i: nat)
    requires EndpointsToCreate(db, p) == Some(rows) && i < |rows|
    ensures i < |EndpointsAbsent(db, p)|
    ensures At(rows[i], EndpointWorkspace) == At(EndpointsAbsent(db, p)[i], WsName)
  {
    var todo := EndpointsAbsent(db, p);
    var roles := Active(db, RbacRoles, p.requiredNames);
    assert RolesPresent(db, p);
    assert rows[i] == EndpointRow(roles, todo[i]);
    EndpointRowName(roles, todo[i]);
  }

  lemma EndpointRowName(roles: seq<Row>, w: Row)
    requires RoleFor(roles, At(w, WsId)).Some?
    ensures At(EndpointRow(roles, w), EndpointWorkspace) == At(w, WsName)
  {
  }

  /** Once the missing endpoints are inserted, every active workspace has one,
      provided their role ids are new to the endpoint table and distinct (the
      table is keyed by role id). */
  lemma EndpointsIdempotent(db: Snapshot, p: Plan, rows: seq<Row>)
    requires EndpointsToCreate(db, p) == Some(rows)
    requires KeysDistinct(rows, 0)
    requires forall j :: 0 <= j < |rows| ==> At(rows[j], 0) !in Keys(Rows(db, RbacRoleEndpoints), 0)
    ensures EndpointsAbsent(Inserted(db, RbacRoleEndpoints, rows), p) == []
  {
    var names := p.requiredNames;
    var db1 := Inserted(db, RbacRoleEndpoints, rows);
    InsertedKeeps(db, RbacRoleEndpoints, rows, names);
    PutAllFresh(Rows(db, RbacRoleEndpoints), 0, rows);
    KeysConcat(Rows(db, RbacRoleEndpoints), rows, EndpointWorkspace);
    var keys := Keys(Rows(db1, RbacRoleEndpoints), EndpointWorkspace);
    forall w | w in ActiveWorkspaces(db1, names) ensures At(w, WsName) in keys {
      if At(w, WsName) !in Keys(Rows(db, RbacRoleEndpoints), EndpointWorkspace) {
        NewEndpointRow(db, p, rows, w);
      }
    }
    RemoveNone(ActiveWorkspaces(db1, names), WsName, keys);
  }

  /** An active workspace without an endpoint gets one. */
  lemma NewEndpointRow(db: Snapshot, p: Plan, rows: seq<Row>, w: Row)
    requires EndpointsToCreate(db, p) == Some(rows)
    requires w in ActiveWorkspaces(db, p.requiredNames)
    requires At(w, WsName) !in Keys(Rows(db, RbacRoleEndpoints), EndpointWorkspace)
    ensures At(w, WsName) in Keys(rows, EndpointWorkspace)
  {
    var todo := EndpointsAbsent(db, p);
    assert w in todo;
    var i :| 0 <= i < |todo| && todo[i] == w;
    EndpointsToCreateAt(db, p, rows, i);
    assert rows[i] in rows;
  }

  // ---------------------------------------------------------------------------
  // The delete pass

  /** The rows of `t` a delete step keeps: those whose first column is not the
      id of an active row. */
  function Survivors(db: Snapshot, t: Table, names: seq<string>): seq<Row>
  {
    Remove(Rows(db, t), 0, set x | x in ActiveIds(db, t, names))
  }

  /** A delete step keeps, in its own table, the survivors. */
  lemma DeleteStepEffect(w: World, t: Table, names: seq<string>)
    ensures Rows(DeleteStep(w, t, names).db, t) == Survivors(w.db, t, names)
  {
  }

  /** A delete step changes no other table. */
  lemma DeleteStepKeeps(w: World, t: Table, names: seq<string>, u: Table)
    requires u != t
    ensures Rows(DeleteStep(w, t, names).db, u) == Rows(w.db, u)
  {
  }

  /** The survivors depend only on the table's rows and the workspaces. */
  lemma SurvivorsSame(db1: Snapshot, db2: Snapshot, t: Table, names: seq<string>)
    requires Rows(db1, t) == Rows(db2, t) && Rows(db1, Workspaces) == Rows(db2, Workspaces)
    ensures Survivors(db1, t, names) == Survivors(db2, t, names)
  {
    assert Scope(db1, t, names) == Scope(db2, t, names);
    assert ActiveIds(db1, t, names) == ActiveIds(db2, t, names);
  }

  /** Delete steps over distinct tables, the workspaces at most last, leave in
      each of their tables the survivors of the state before the first step; the
      other tables keep their rows. */
  lemma {:induction false} DeleteStepsTable(w: World, ts: seq<Table>, names: seq<string>, t: Table)
    requires forall i, j :: 0 <= i < j < |ts| ==> ts[i] != ts[j]
    requires forall i :: 0 <= i < |ts| - 1 ==> ts[i] != Workspaces
    ensures t in ts ==> Rows(DeleteSteps(w, ts, names).db, t) == Survivors(w.db, t, names)
    ensures t !in ts ==> Rows(DeleteSteps(w, ts, names).db, t) == Rows(w.db, t)
    decreases |ts|
  {
    if ts != [] {
      var w1 := DeleteStep(w, ts[0], names);
      var rest := ts[1..];
      DeleteStepsFirst(w, ts, names);
      assert forall i :: 0 <= i < |rest| ==> rest[i] == ts[i + 1];
      DeleteStepsTable(w1, rest, names, t);
      if t == ts[0] {
        DeleteStepEffect(w, t, names);
        assert forall k :: 0 <= k < |rest| ==> rest[k] != t;
      } else if t in rest {
        var k :| 0 <= k < |rest| && rest[k] == t;
        assert ts[k + 1] == t;
        DeleteStepKeeps(w, ts[0], names, t);
        DeleteStepKeeps(w, ts[0], names, Workspaces);
        SurvivorsSame(w1.db, w.db, t, names);
      } else {
        DeleteStepKeeps(w, ts[0], names, t);
      }
    }
  }

  /** The delete order lists every table once, the workspaces last. */
  lemma DeleteOrderShape(t: Table)
    ensures forall i, j :: 0 <= i < j < |DeleteOrder| ==> DeleteOrder[i] != DeleteOrder[j]
    ensures forall i :: 0 <= i < |DeleteOrder| - 1 ==> DeleteOrder[i] != Workspaces
    ensures t in DeleteOrder
  {
  }

  /** `delete_entities` deletes, from every table, exactly the rows whose first
      column is the id of a row active when it starts: the workspaces are deleted
      last, so no step sees a scope narrowed by an earlier one. */
  lemma DeletePassTable(w: World, names: seq<string>, t: Table)
    ensures Rows(DeletePass(w, names).db, t) == Survivors(w.db, t, names)
  {
    DeletePassInOrder(w, names);
    DeleteOrderShape(t);
    DeleteStepsTable(w, DeleteOrder, names, t);
  }

  /** After `delete_entities` a row remains exactly when it was stored and its
      first column is not the id of a row active at the start; in particular no
      row of a configured workspace remains. */
  lemma DeletePassRows(w: World, names: seq<string>, t: Table, r: Row)
    ensures r in Rows(DeletePass(w, names).db, t) <==>
      r in Rows(w.db, t) && At(r, 0) !in ActiveIds(w.db, t, names)
    ensures r in Active(w.db, t, names) ==> r !in Rows(DeletePass(w, names).db, t)
  {
    DeletePassTable(w, names, t);
    if r in Active(w.db, t, names) {
      ColumnHas(Active(w.db, t, names), 0, At(r, 0));
    }
  }

  /** Scope isolation: in a table whose ids are distinct, a row outside the
      configured workspaces survives `delete_entities`, whatever its name. */
  lemma DeletePassSparesForeign(w: World, names: seq<string>, t: Table, r: Row)
    requires KeysDistinct(Rows(w.db, t), 0)
    requires r in Rows(w.db, t) && r !in Active(w.db, t, names)
    ensures r in Rows(DeletePass(w, names).db, t)
  {
    var active := Active(w.db, t, names);
    assert forall a :: a in active ==> a in Rows(w.db, t);
    IdOfOther(Rows(w.db, t), active, r);
    DeletePassRows(w, names, t, r);
  }

  /** In rows with distinct ids, a row outside a sub-collection does not share
      its id with any row of it. */
  lemma IdOfOther(rows: seq<Row>, sub: seq<Row>, r: Row)
    requires KeysDistinct(rows, 0) && r in rows && r !in sub
    requires forall a :: a in sub ==> a in rows
    ensures At(r, 0) !in Column(sub, 0)
  {
    var j :| 0 <= j < |rows| && rows[j] == r;
    forall a | a in sub ensures At(a, 0) != At(r, 0) {
      var i :| 0 <= i < |rows| && rows[i] == a;
      assert i != j;
    }
    ColumnHas(sub, 0, At(r, 0));
  }

  /** Apart from the workspaces (keyed by name), every table of a sound store
      is keyed by the column the delete pass matches on. */
  lemma SoundIdsDistinct(db: Snapshot, t: Table)
    requires Sound(db) && t != Workspaces
    ensures KeysDistinct(Rows(db, t), 0)
  {
    assert KeysDistinct(Rows(db, t), KeyColumn(t));
  }

  // ---------------------------------------------------------------------------
  // The shared argument

  /** Removing the rows whose column holds one of `ids` leaves nothing when every
      row holds one. */
  lemma {:induction false} RemoveNone(rows: seq<Row>, col: nat, ids: set<string>)
    requires forall r :: r in rows ==> At(r, col) in ids
    ensures Remove(rows, col, ids) == []
    decreases |rows|
  {
    if rows != [] {
      var init := rows[..|rows| - 1];
      assert forall r :: r in init ==> r in rows;
      assert rows[|rows| - 1] in rows;
      RemoveNone(init, col, ids);
    }
  }

  /** Adding the missing composites to the current ones leaves nothing missing. */
  lemma MissingFilled(required: seq<string>, current: seq<string>)
    ensures Missing(required, current + Missing(required, current)) == []
  {
    MissingNone(required, current + Missing(required, current));
  }
}
