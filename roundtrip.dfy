/** The create pass as a whole, run against a store that holds none of the
    configured workspaces yet: it creates `W` workspaces, `W` roles, `W`
    endpoints, `W * S` services, `W * S * R` routes, `W * C` consumers and
    `W * S * P` plugins, and the delete pass for the same configuration then
    gives every table back the rows it had before. */
module RoundTrip {
  import opened Strings
  import opened Store
  import opened Reconcile
  import opened Hydrate
  import opened Passes
  import opened Properties

  // ---------------------------------------------------------------------------
  // The starting state

  /** The ids in the first column of any table. */
  function StoredIds(db: Snapshot): set<string>
  {
    Keys(Rows(db, Workspaces), 0) + Keys(Rows(db, RbacRoles), 0) + Keys(Rows(db, RbacRoleEndpoints), 0)
    + Keys(Rows(db, Services), 0) + Keys(Rows(db, Routes), 0) + Keys(Rows(db, Consumers), 0)
    + Keys(Rows(db, Plugins), 0)
  }

  lemma StoredIdsHas(db: Snapshot, t: Table)
    ensures Keys(Rows(db, t), 0) <= StoredIds(db)
  {
  }

  /** None of the configured workspaces is stored, and no stored row belongs to
      one of them: no endpoint names one, and no other row carries the id of one. */
  ghost predicate Unclaimed(db: Snapshot, required: seq<Row>)
  {
    (forall r :: r in Rows(db, Workspaces) ==> At(r, WsName) !in Column(required, WsName))
    && (forall r :: r in Rows(db, RbacRoleEndpoints) ==> At(r, EndpointWorkspace) !in Column(required, WsName))
    && (forall t, r :: t != Workspaces && t != RbacRoleEndpoints && r in Rows(db, t) ==>
          At(r, ScopeColumn(t)) !in Column(required, WsId))
  }

  /** How many ids a run draws for `count` workspaces: one per workspace, then
      one per row the create pass adds to the other tables. */
  function IdsDrawn(count: nat, p: Plan): nat
  {
    count + Created(RbacRoles, count, p) + Created(Services, count, p) + Created(Routes, count, p)
    + Created(Consumers, count, p) + Created(Plugins, count, p)
  }

  /** How many rows a first run adds to `t` for `count` workspaces. */
  function Created(t: Table, count: nat, p: Plan): nat
  {
    match t
    case Workspaces => count
    case RbacRoles => count
    case RbacRoleEndpoints => count
    case Services => count * p.services
    case Routes => count * p.services * p.routes
    case Consumers => count * p.consumers
    case Plugins => count * p.services * |p.plugins|
  }

  /** The configuration `__init__` builds for `count` workspaces under `prefix`,
      against a store where none of them exists yet: every id the run draws is
      clean and new, names are clean, and every plugin has a configuration. */
  ghost predicate FirstRun(db: Snapshot, prefix: string, count: nat, p: Plan, gen: nat -> string)
  {
    var required := NameRows(prefix, "workspace", gen, 0, count);
    p.requiredNames == Column(required, WsName)
    && Clean(prefix) && DefaultsClean(p.defaults)
    && CleanPlugins(p.plugins) && (forall i :: 0 <= i < |p.plugins| ==> p.plugins[i] in p.configs)
    && Unclaimed(db, required)
    && FreshIds(gen, 0, IdsDrawn(count, p), StoredIds(db))
  }

  /** The active workspaces have clean names and ids. */
  ghost predicate CleanWorkspaces(db: Snapshot, names: seq<string>)
  {
    forall w :: w in ActiveWorkspaces(db, names) ==> Clean(At(w, WsName)) && Clean(At(w, WsId))
  }

  /** Part of a run of fresh ids is fresh. */
  lemma FreshWithin(gen: nat -> string, total: nat, taken: set<string>, start: nat, count: nat, keys: set<string>)
    requires FreshIds(gen, 0, total, taken) && start + count <= total && keys <= taken
    ensures FreshIds(gen, start, count, keys)
  {
  }

  /** The active rows of a table depend only on its rows and the workspaces. */
  lemma ActiveSame(a: Snapshot, b: Snapshot, t: Table, names: seq<string>)
    requires Rows(a, t) == Rows(b, t) && Rows(a, Workspaces) == Rows(b, Workspaces)
    ensures Active(a, t, names) == Active(b, t, names)
    ensures ActiveWorkspaces(a, names) == ActiveWorkspaces(b, names)
  {
    assert Scope(a, t, names) == Scope(b, t, names);
  }

  /** A sequence without elements is empty. */
  lemma NoElements(rows: seq<Row>)
    ensures (forall x :: x !in rows) ==> rows == []
  {
    if rows != [] {
      assert rows[0] in rows;
    }
  }

  // ---------------------------------------------------------------------------
  // Removal

  /** Removing by ids no row holds leaves the rows as they are. */
  lemma {:induction false} RemoveNothing(rows: seq<Row>, col: nat, ids: set<string>)
    requires forall x :: x in rows ==> At(x, col) !in ids
    ensures Remove(rows, col, ids) == rows
    decreases |rows|
  {
    if rows != [] {
      var init := rows[..|rows| - 1];
      assert rows[|rows| - 1] in rows;
      assert forall x :: x in init ==> x in rows;
      RemoveNothing(init, col, ids);
      assert init + [rows[|rows| - 1]] == rows;
    }
  }

  /** Rows appended after `a` that all hold one of the ids are removed again. */
  lemma {:induction false} RemoveDropsTail(a: seq<Row>, b: seq<Row>, col: nat, ids: set<string>)
    requires forall x :: x in b ==> At(x, col) in ids
    ensures Remove(a + b, col, ids) == Remove(a, col, ids)
    decreases |b|
  {
    if b == [] {
      assert a + b == a;
    } else {
      var init := b[..|b| - 1];
      var s := a + b;
      assert s[..|s| - 1] == a + init;
      assert s[|s| - 1] == b[|b| - 1] && b[|b| - 1] in b;
      assert forall x :: x in init ==> x in b;
      RemoveDropsTail(a, init, col, ids);
    }
  }

  /** Removing by ids no row of `a` and every row of `b` has leaves `a`. */
  lemma RemoveAppended(a: seq<Row>, b: seq<Row>, col: nat, ids: set<string>)
    requires forall x :: x in a ==> At(x, col) !in ids
    requires forall x :: x in b ==> At(x, col) in ids
    ensures Remove(a + b, col, ids) == a
  {
    RemoveDropsTail(a, b, col, ids);
    RemoveNothing(a, col, ids);
  }

  // ---------------------------------------------------------------------------
  // The workspace step

  /** On a first run every configured pair is absent, so the workspace step
      creates each of them with the metadata, in order. */
  lemma FirstWorkspaceRows(ws: seq<Row>, prefix: string, gen: nat -> string, count: nat)
    requires forall r :: r in ws ==> At(r, WsName) !in Column(NameRows(prefix, "workspace", gen, 0, count), WsName)
    ensures var rows := WorkspaceRows(NameRows(prefix, "workspace", gen, 0, count), ws);
      |rows| == count
      && (forall j :: 0 <= j < count ==> rows[j] == [gen(j), DerivedName(prefix, "workspace", j), Meta])
  {
    var required := NameRows(prefix, "workspace", gen, 0, count);
    forall x | x in required ensures At(x, WsName) !in Keys(ws, WsName) {
      var i :| 0 <= i < |required| && required[i] == x;
      assert Column(required, WsName)[i] == At(x, WsName);
    }
    RemoveNothing(required, WsName, Keys(ws, WsName));
  }

  /** The new workspace rows carry the configured ids and names, once each. */
  lemma FirstWorkspaceColumns(rows: seq<Row>, prefix: string, gen: nat -> string, count: nat)
    requires |rows| == count
    requires forall j :: 0 <= j < count ==> rows[j] == [gen(j), DerivedName(prefix, "workspace", j), Meta]
    ensures Column(rows, WsId) == Column(NameRows(prefix, "workspace", gen, 0, count), WsId)
    ensures Column(rows, WsName) == Column(NameRows(prefix, "workspace", gen, 0, count), WsName)
    ensures KeysDistinct(rows, WsName)
  {
    forall i, j | 0 <= i < j < |rows| ensures At(rows[i], WsName) != At(rows[j], WsName) {
      DerivedNameInjective(prefix, "workspace", i, j);
    }
  }

  /** The workspace step when its rows fit: the configured pairs gain the
      metadata, one COPY is logged and applied, no id is drawn. */
  lemma WorkspacesStepLoads(w: World)
    requires Fits(Workspaces, WorkspaceRows(w.required, Rows(w.db, Workspaces)))
    ensures var o := WorkspacesStep(Outcome(w, true));
      o.ok && o.world.issued == w.issued
      && o.world.db == Inserted(w.db, Workspaces, WorkspaceRows(w.required, Rows(w.db, Workspaces)))
  {
  }

  /** On a first run the workspace step appends the configured workspaces, and
      they are then exactly the active ones. */
  lemma WorkspacesStepAdds(w: World, prefix: string, count: nat, names: seq<string>, gen: nat -> string)
    requires w.required == NameRows(prefix, "workspace", gen, 0, count)
    requires names == Column(w.required, WsName)
    requires forall r :: r in Rows(w.db, Workspaces) ==> At(r, WsName) !in names
    ensures var o := WorkspacesStep(Outcome(w, true));
      var rows := WorkspaceRows(w.required, Rows(w.db, Workspaces));
      o.ok && o.world.issued == w.issued && |rows| == count
      && (forall j :: 0 <= j < count ==> rows[j] == [gen(j), DerivedName(prefix, "workspace", j), Meta])
      && Rows(o.world.db, Workspaces) == Rows(w.db, Workspaces) + rows
      && (forall u :: u != Workspaces ==> Rows(o.world.db, u) == Rows(w.db, u))
      && ActiveWorkspaces(o.world.db, names) == rows
  {
    var ws := Rows(w.db, Workspaces);
    var rows := WorkspaceRows(w.required, ws);
    FirstWorkspaceRows(ws, prefix, gen, count);
    FirstWorkspaceColumns(rows, prefix, gen, count);
    assert Fits(Workspaces, rows);
    WorkspacesStepLoads(w);
    forall j | 0 <= j < |rows| ensures At(rows[j], WsName) in names {
      assert Column(rows, WsName)[j] == At(rows[j], WsName);
    }
    WorkspacesAppended(ws, rows, names);
  }

  /** New workspaces whose names are all configured and none stored are
      appended, and then the configured names select exactly them. */
  lemma WorkspacesAppended(ws: seq<Row>, rows: seq<Row>, names: seq<string>)
    requires forall r :: r in ws ==> At(r, WsName) !in names
    requires forall j :: 0 <= j < |rows| ==> At(rows[j], WsName) in names
    requires KeysDistinct(rows, WsName)
    ensures PutAll(ws, WsName, rows) == ws + rows
    ensures Select(ws + rows, WsName, names) == rows
  {
    PutAllFresh(ws, WsName, rows);
    SelectConcat(ws, rows, WsName, names);
    NoElements(Select(ws, WsName, names));
    SelectEvery(rows, WsName, names);
  }

  /** The configured workspaces, once in, have clean names and ids. */
  lemma FirstClean(db1: Snapshot, names: seq<string>, prefix: string, count: nat, gen: nat -> string)
    requires Clean(prefix) && forall j :: 0 <= j < count ==> Clean(gen(j))
    requires var rows := ActiveWorkspaces(db1, names);
      |rows| == count
      && forall j :: 0 <= j < count ==> rows[j] == [gen(j), DerivedName(prefix, "workspace", j), Meta]
    ensures CleanWorkspaces(db1, names)
  {
    var rows := ActiveWorkspaces(db1, names);
    CleanPlain("workspace");
    forall x | x in rows ensures Clean(At(x, WsName)) && Clean(At(x, WsId)) {
      var j :| 0 <= j < |rows| && rows[j] == x;
      DerivedNameClean(prefix, "workspace", j);
    }
  }

  /** On a first run, once the configured workspaces are in, no stored row of
      another table is active. */
  lemma FirstInactive(db: Snapshot, db1: Snapshot, required: seq<Row>, names: seq<string>, u: Table)
    requires Unclaimed(db, required) && u != Workspaces && Rows(db1, u) == Rows(db, u)
    requires Column(ActiveWorkspaces(db1, names), WsId) == Column(required, WsId)
    requires Column(ActiveWorkspaces(db1, names), WsName) == Column(required, WsName)
    ensures Active(db1, u, names) == []
  {
    assert Scope(db1, u, names) == if u == RbacRoleEndpoints then Column(required, WsName) else Column(required, WsId);
    NoElements(Active(db1, u, names));
  }


  // ---------------------------------------------------------------------------
  // One bulk insert of fresh rows

  /** Rows a bulk insert into `t` appends as they are: they have the table's
      width, the fresh distinct ids `gen(n) ..`, and each belongs to a
      configured workspace. */
  ghost predicate Loadable(db: Snapshot, t: Table, rows: seq<Row>, gen: nat -> string, n: nat, names: seq<string>)
  {
    Fits(t, rows) && FreshIds(gen, n, |rows|, Keys(Rows(db, t), 0))
    && (forall j :: 0 <= j < |rows| ==> At(rows[j], 0) == gen(n + j))
    && (forall j :: 0 <= j < |rows| ==> At(rows[j], ScopeColumn(t)) in Scope(db, t, names))
  }

  lemma LoadableOf(db: Snapshot, t: Table, rows: seq<Row>, gen: nat -> string, n: nat, names: seq<string>)
    requires Fits(t, rows) && FreshIds(gen, n, |rows|, Keys(Rows(db, t), 0))
    requires forall j :: 0 <= j < |rows| ==> At(rows[j], 0) == gen(n + j)
    requires forall j :: 0 <= j < |rows| ==> At(rows[j], ScopeColumn(t)) in Scope(db, t, names)
    ensures Loadable(db, t, rows, gen, n, names)
  {
  }

  /** `o2` follows `o` by one bulk insert of `rows` into `t` after drawing
      `used` ids: the rows are appended to `t`, no other table changes, and
      they are exactly the active rows `t` gains. */
  ghost predicate Appended(o: Outcome, o2: Outcome, t: Table, rows: seq<Row>, used: nat, names: seq<string>)
  {
    o2.ok && o2.world.issued == o.world.issued + used
    && Rows(o2.world.db, t) == Rows(o.world.db, t) + rows
    && (forall u :: u != t ==> Rows(o2.world.db, u) == Rows(o.world.db, u))
    && Active(o2.world.db, t, names) == Active(o.world.db, t, names) + rows
  }

  /** A COPY of loadable rows into a table other than the workspaces appends them. */
  lemma LoadAppended(w: World, t: Table, rows: seq<Row>, used: nat, gen: nat -> string, n: nat, names: seq<string>)
    requires t != Workspaces && Loadable(w.db, t, rows, gen, n, names)
    ensures Appended(Outcome(w, true), Load(w, t, rows, used), t, rows, used, names)
  {
    InsertFresh(w.db, t, rows, gen, n);
    InsertedActive(w.db, t, rows, gen, n, names, ScopeColumn(t));
  }

  // ---------------------------------------------------------------------------
  // The role and endpoint steps

  /** With no active role yet, every active workspace lacks one. */
  lemma RolesAllAbsent(db: Snapshot, p: Plan)
    requires Active(db, RbacRoles, p.requiredNames) == []
    ensures RolesAbsent(db, p) == ActiveWorkspaces(db, p.requiredNames)
  {
    var names := p.requiredNames;
    var ws := ActiveWorkspaces(db, names);
    forall w | w in ws ensures At(w, WsId) !in Keys(Rows(db, RbacRoles), RoleWsId) {
      ColumnHas(ws, WsId, At(w, WsId));
      forall r | r in Rows(db, RbacRoles) ensures At(r, RoleWsId) != At(w, WsId) {
        assert r !in Active(db, RbacRoles, names);
      }
    }
    RemoveNothing(ws, WsId, Keys(Rows(db, RbacRoles), RoleWsId));
  }

  /** With no active role yet, the roles step computes one role per active
      workspace, in order, with the next ids. */
  lemma RolesFirst(db: Snapshot, p: Plan, gen: nat -> string, n: nat)
    requires Active(db, RbacRoles, p.requiredNames) == []
    requires FreshIds(gen, n, |ActiveWorkspaces(db, p.requiredNames)|, Keys(Rows(db, RbacRoles), 0))
    ensures RolesToCreate(db, p, gen, n) == RoleRows(ActiveWorkspaces(db, p.requiredNames), gen, n)
    ensures Loadable(db, RbacRoles, RolesToCreate(db, p, gen, n), gen, n, p.requiredNames)
  {
    RolesAllAbsent(db, p);
    RoleRowsFields(db, p, gen, n);
    assert ScopeColumn(RbacRoles) == RoleWsId;
    LoadableOf(db, RbacRoles, RolesToCreate(db, p, gen, n), gen, n, p.requiredNames);
  }

  /** With no active role yet, the roles step gives every active workspace its
      role, drawing one id each. */
  lemma RolesStepAdds(o: Outcome, p: Plan, gen: nat -> string) returns (o': Outcome, rows: seq<Row>)
    requires o.ok && Active(o.world.db, RbacRoles, p.requiredNames) == []
    requires FreshIds(gen, o.world.issued, |ActiveWorkspaces(o.world.db, p.requiredNames)|,
                      Keys(Rows(o.world.db, RbacRoles), 0))
    ensures o' == RolesStep(o, p, gen)
    ensures rows == RoleRows(ActiveWorkspaces(o.world.db, p.requiredNames), gen, o.world.issued)
    ensures Loadable(o.world.db, RbacRoles, rows, gen, o.world.issued, p.requiredNames)
    ensures Appended(o, o', RbacRoles, rows, |rows|, p.requiredNames)
  {
    rows := RolesToCreate(o.world.db, p, gen, o.world.issued);
    RolesFirst(o.world.db, p, gen, o.world.issued);
    LoadAppended(o.world, RbacRoles, rows, |rows|, gen, o.world.issued, p.requiredNames);
    o' := Load(o.world, RbacRoles, rows, |rows|);
  }

  /** Among the roles of workspaces with distinct ids, the lookup for the
      `i`-th workspace finds the `i`-th role. */
  lemma RoleForDistinct(ws: seq<Row>, gen: nat -> string, n: nat, i: nat)
    requires i < |ws| && forall k, l :: 0 <= k < l < |ws| ==> At(ws[k], WsId) != At(ws[l], WsId)
    ensures RoleFor(RoleRows(ws, gen, n), At(ws[i], WsId)) == Some(gen(n + i))
  {
    var roles := RoleRows(ws, gen, n);
    assert At(roles[i], RoleWsId) == At(ws[i], WsId);
    var k :| 0 <= k < |roles| && At(roles[k], RoleWsId) == At(ws[i], WsId)
      && At(roles[k], RoleId) == RoleFor(roles, At(ws[i], WsId)).value;
    assert At(roles[k], RoleWsId) == At(ws[k], WsId);
  }

  /** With no active endpoint yet, every active workspace lacks one. */
  lemma EndpointsAllAbsent(db: Snapshot, p: Plan)
    requires Active(db, RbacRoleEndpoints, p.requiredNames) == []
    ensures EndpointsAbsent(db, p) == ActiveWorkspaces(db, p.requiredNames)
  {
    var names := p.requiredNames;
    var ws := ActiveWorkspaces(db, names);
    forall w | w in ws ensures At(w, WsName) !in Keys(Rows(db, RbacRoleEndpoints), EndpointWorkspace) {
      ColumnHas(ws, WsName, At(w, WsName));
      forall r | r in Rows(db, RbacRoleEndpoints) ensures At(r, EndpointWorkspace) != At(w, WsName) {
        assert r !in Active(db, RbacRoleEndpoints, names);
      }
    }
    RemoveNothing(ws, WsName, Keys(Rows(db, RbacRoleEndpoints), EndpointWorkspace));
  }

  /** The endpoints the step computes when every active workspace lacks one and
      has exactly the role the roles step gave it: the `i`-th on the `i`-th role. */
  lemma EndpointRowsFirst(db: Snapshot, p: Plan, gen: nat -> string, n: nat)
    requires var ws := ActiveWorkspaces(db, p.requiredNames);
      Active(db, RbacRoleEndpoints, p.requiredNames) == []
      && Active(db, RbacRoles, p.requiredNames) == RoleRows(ws, gen, n)
      && (forall k, l :: 0 <= k < l < |ws| ==> At(ws[k], WsId) != At(ws[l], WsId))
    ensures var ws := ActiveWorkspaces(db, p.requiredNames);
      EndpointsToCreate(db, p).Some?
      && |EndpointsToCreate(db, p).value| == |ws|
      && forall i :: 0 <= i < |ws| ==>
           EndpointsToCreate(db, p).value[i] == [gen(n + i), At(ws[i], WsName), "*", "15", "false"]
  {
    var ws := ActiveWorkspaces(db, p.requiredNames);
    var roles := RoleRows(ws, gen, n);
    EndpointsAllAbsent(db, p);
    forall i | 0 <= i < |ws| ensures RoleFor(roles, At(ws[i], WsId)) == Some(gen(n + i)) {
      RoleForDistinct(ws, gen, n, i);
    }
    assert RolesPresent(db, p);
    var r := EndpointsToCreate(db, p).value;
    forall i | 0 <= i < |ws| ensures r[i] == [gen(n + i), At(ws[i], WsName), "*", "15", "false"] {
      assert r[i] == EndpointRow(roles, ws[i]);
    }
  }

  /** Endpoints made one per workspace carry those workspaces' names. */
  lemma EndpointsNamed(rows: seq<Row>, ws: seq<Row>, gen: nat -> string, n: nat)
    requires |rows| == |ws|
    requires forall i :: 0 <= i < |ws| ==> rows[i] == [gen(n + i), At(ws[i], WsName), "*", "15", "false"]
    ensures forall j :: 0 <= j < |rows| ==> At(rows[j], EndpointWorkspace) in Column(ws, WsName)
    ensures forall j :: 0 <= j < |rows| ==> At(rows[j], 0) == gen(n + j)
    ensures Fits(RbacRoleEndpoints, rows)
  {
    forall j | 0 <= j < |rows| ensures At(rows[j], EndpointWorkspace) in Column(ws, WsName) {
      assert Column(ws, WsName)[j] == At(ws[j], WsName);
    }
  }

  /** With no active endpoint yet and one new role per workspace, the
      endpoints step computes one endpoint per active workspace, keyed by the
      id of that workspace's role. */
  lemma EndpointsFirst(db: Snapshot, p: Plan, gen: nat -> string, n: nat)
    requires var ws := ActiveWorkspaces(db, p.requiredNames);
      Active(db, RbacRoleEndpoints, p.requiredNames) == []
      && Active(db, RbacRoles, p.requiredNames) == RoleRows(ws, gen, n)
      && (forall k, l :: 0 <= k < l < |ws| ==> At(ws[k], WsId) != At(ws[l], WsId))
      && FreshIds(gen, n, |ws|, Keys(Rows(db, RbacRoleEndpoints), 0))
    ensures EndpointsToCreate(db, p).Some?
    ensures |EndpointsToCreate(db, p).value| == |ActiveWorkspaces(db, p.requiredNames)|
    ensures Loadable(db, RbacRoleEndpoints, EndpointsToCreate(db, p).value, gen, n, p.requiredNames)
  {
    EndpointRowsFirst(db, p, gen, n);
    EndpointsLoadable(db, p, gen, n, EndpointsToCreate(db, p).value);
  }

  /** Endpoints made one per active workspace, on fresh ids, are loadable. */
  lemma EndpointsLoadable(db: Snapshot, p: Plan, gen: nat -> string, n: nat, rows: seq<Row>)
    requires var ws := ActiveWorkspaces(db, p.requiredNames);
      |rows| == |ws| && FreshIds(gen, n, |ws|, Keys(Rows(db, RbacRoleEndpoints), 0))
      && forall i :: 0 <= i < |ws| ==> rows[i] == [gen(n + i), At(ws[i], WsName), "*", "15", "false"]
    ensures Loadable(db, RbacRoleEndpoints, rows, gen, n, p.requiredNames)
  {
    var ws := ActiveWorkspaces(db, p.requiredNames);
    assert Scope(db, RbacRoleEndpoints, p.requiredNames) == Column(ws, WsName);
    EndpointsNamed(rows, ws, gen, n);
    assert ScopeColumn(RbacRoleEndpoints) == EndpointWorkspace;
    LoadableOf(db, RbacRoleEndpoints, rows, gen, n, p.requiredNames);
  }

  /** With no active endpoint yet and one new role per workspace, the endpoints
      step gives every active workspace its endpoint and draws no id. */
  lemma EndpointsStepAdds(o: Outcome, p: Plan, gen: nat -> string, n: nat) returns (o': Outcome, rows: seq<Row>)
    requires o.ok
    requires var ws := ActiveWorkspaces(o.world.db, p.requiredNames);
      Active(o.world.db, RbacRoleEndpoints, p.requiredNames) == []
      && Active(o.world.db, RbacRoles, p.requiredNames) == RoleRows(ws, gen, n)
      && (forall k, l :: 0 <= k < l < |ws| ==> At(ws[k], WsId) != At(ws[l], WsId))
      && FreshIds(gen, n, |ws|, Keys(Rows(o.world.db, RbacRoleEndpoints), 0))
    ensures o' == EndpointsStep(o, p) && EndpointsToCreate(o.world.db, p) == Some(rows)
    ensures |rows| == |ActiveWorkspaces(o.world.db, p.requiredNames)|
    ensures Loadable(o.world.db, RbacRoleEndpoints, rows, gen, n, p.requiredNames)
    ensures Appended(o, o', RbacRoleEndpoints, rows, 0, p.requiredNames)
  {
    EndpointsFirst(o.world.db, p, gen, n);
    rows := EndpointsToCreate(o.world.db, p).value;
    LoadAppended(o.world, RbacRoleEndpoints, rows, 0, gen, n, p.requiredNames);
    o' := Load(o.world, RbacRoleEndpoints, rows, 0);
  }

  // ---------------------------------------------------------------------------
  // The service step

  /** Names and ids that are clean are usable as parts of composite keys. */
  lemma CleanKeyWorkspaces(db: Snapshot, names: seq<string>)
    requires CleanWorkspaces(db, names)
    ensures KeyWorkspaces(db, names)
  {
    forall w | w in ActiveWorkspaces(db, names) ensures KeyPart(At(w, WsName)) && KeyPart(At(w, WsId)) {
      CleanNoSeparator(At(w, WsName));
      CleanNoSeparator(At(w, WsId));
    }
  }

  /** Every row has a clean service name, id and workspace id. */
  ghost predicate CleanServiceRows(rows: seq<Row>)
  {
    forall j :: 0 <= j < |rows| ==>
      Clean(At(rows[j], SvcName)) && Clean(At(rows[j], SvcId)) && Clean(At(rows[j], SvcWsId))
  }

  /** A wanted service composite, hydrated with a clean id, gives a row whose
      name, id and workspace id are clean. */
  lemma ServiceRowClean(db: Snapshot, p: Plan, x: string, id: string)
    requires x in RequiredServiceNames(db, p)
    requires CleanWorkspaces(db, p.requiredNames) && DefaultsClean(p.defaults) && Clean(id)
    ensures 2 <= |Split(x, '^')|
    ensures var r := ServiceRow(x, id, p.defaults);
      Clean(At(r, SvcName)) && Clean(At(r, SvcId)) && Clean(At(r, SvcWsId))
  {
    RequiredServiceNamesAre(db, p, x);
    var w, k :| w in ActiveWorkspaces(db, p.requiredNames) && 0 <= k < p.services &&
      x == Key2(DerivedName(At(w, WsName), "svc", k), At(w, WsId));
    var name := DerivedName(At(w, WsName), "svc", k);
    KindsClean();
    DerivedNameClean(At(w, WsName), "svc", k);
    CleanNoSeparator(name);
    CleanNoSeparator(At(w, WsId));
    CleanNoSeparator(id);
    ServiceRowFields(name, At(w, WsId), id, p.defaults);
  }

  /** The rows the services step computes have the table's width and clean
      names and ids. */
  lemma ServicesFit(db: Snapshot, p: Plan, gen: nat -> string, n: nat)
    requires CleanWorkspaces(db, p.requiredNames) && DefaultsClean(p.defaults)
    requires forall k :: n <= k < n + |ServicesMissing(db, p)| ==> Clean(gen(k))
    ensures Fits(Services, ServicesToCreate(db, p, gen, n))
    ensures CleanServiceRows(ServicesToCreate(db, p, gen, n))
  {
    var rows := ServicesToCreate(db, p, gen, n);
    var m := ServicesMissing(db, p);
    CleanKeyWorkspaces(db, p.requiredNames);
    forall j | 0 <= j < |rows|
      ensures |rows[j]| == |Columns(Services)|
      ensures Clean(At(rows[j], SvcName)) && Clean(At(rows[j], SvcId)) && Clean(At(rows[j], SvcWsId))
    {
      ServiceRowOf(db, p, gen, n, j);
      ServicesToCreateAt(db, p, gen, n, j);
      assert m[j] in m;
      ServiceRowClean(db, p, m[j], gen(n + j));
    }
  }

  /** With no active service yet, every wanted service is missing: the step
      computes `S` loadable rows per active workspace, with clean names and ids. */
  lemma ServicesFirst(db: Snapshot, p: Plan, gen: nat -> string, n: nat, count: nat)
    requires CleanWorkspaces(db, p.requiredNames) && DefaultsClean(p.defaults)
    requires Active(db, Services, p.requiredNames) == []
    requires count == |ActiveWorkspaces(db, p.requiredNames)| * p.services
    requires FreshIds(gen, n, count, Keys(Rows(db, Services), 0))
    ensures |ServicesToCreate(db, p, gen, n)| == count
    ensures Loadable(db, Services, ServicesToCreate(db, p, gen, n), gen, n, p.requiredNames)
    ensures CleanServiceRows(ServicesToCreate(db, p, gen, n))
  {
    ServiceCount(db, p);
    assert ServicesMissing(db, p) == RequiredServiceNames(db, p);
    CleanKeyWorkspaces(db, p.requiredNames);
    ServiceKeysOfNew(db, p, gen, n);
    ServicesFit(db, p, gen, n);
    assert ScopeColumn(Services) == SvcWsId;
    LoadableOf(db, Services, ServicesToCreate(db, p, gen, n), gen, n, p.requiredNames);
  }

  lemma ServicesStepLoad(o: Outcome, p: Plan, gen: nat -> string, rows: seq<Row>)
    requires o.ok && rows == ServicesToCreate(o.world.db, p, gen, o.world.issued)
    ensures ServicesStep(o, p, gen) == Load(o.world, Services, rows, |rows|)
  {
  }

  /** With no active service yet, the services step creates `S` services per
      active workspace, drawing one id each. */
  lemma ServicesStepAdds(o: Outcome, p: Plan, gen: nat -> string, count: nat) returns (o': Outcome, rows: seq<Row>)
    requires o.ok && CleanWorkspaces(o.world.db, p.requiredNames) && DefaultsClean(p.defaults)
    requires Active(o.world.db, Services, p.requiredNames) == []
    requires count == |ActiveWorkspaces(o.world.db, p.requiredNames)| * p.services
    requires FreshIds(gen, o.world.issued, count, Keys(Rows(o.world.db, Services), 0))
    ensures o' == ServicesStep(o, p, gen) && |rows| == count && CleanServiceRows(rows)
    ensures Loadable(o.world.db, Services, rows, gen, o.world.issued, p.requiredNames)
    ensures Appended(o, o', Services, rows, count, p.requiredNames)
  {
    rows := ServicesToCreate(o.world.db, p, gen, o.world.issued);
    ServicesFirst(o.world.db, p, gen, o.world.issued, count);
    LoadAppended(o.world, Services, rows, count, gen, o.world.issued, p.requiredNames);
    ServicesStepLoad(o, p, gen, rows);
    o' := Load(o.world, Services, rows, count);
  }

  /** Services whose names and ids are clean serve as the parents of routes and plugins. */
  lemma CleanServicesFrom(db: Snapshot, names: seq<string>)
    requires CleanServiceRows(Active(db, Services, names))
    ensures PlainServices(db, names) && CleanServices(db, names)
  {
    var svcs := Active(db, Services, names);
    forall s | s in svcs
      ensures PlainPart(At(s, SvcName)) && PlainPart(At(s, SvcId)) && PlainPart(At(s, SvcWsId))
      ensures Clean(At(s, SvcId)) && Clean(At(s, SvcWsId))
    {
      var j :| 0 <= j < |svcs| && svcs[j] == s;
      CleanNoSeparator(At(s, SvcName));
      CleanNoSeparator(At(s, SvcId));
      CleanNoSeparator(At(s, SvcWsId));
    }
  }

  // ---------------------------------------------------------------------------
  // The route step

  lemma RoutesFit(db: Snapshot, p: Plan, gen: nat -> string, n: nat)
    requires PlainServices(db, p.requiredNames)
    requires forall k :: n <= k < n + |RoutesMissing(db, p)| ==> Clean(gen(k))
    ensures Fits(Routes, RoutesToCreate(db, p, gen, n))
  {
    var rows := RoutesToCreate(db, p, gen, n);
    forall j | 0 <= j < |rows| ensures |rows[j]| == |Columns(Routes)| {
      RouteRowOf(db, p, gen, n, j);
    }
  }

  /** With no active route yet, every wanted route is missing: the step
      computes `R` loadable rows per active service. */
  lemma RoutesFirst(db: Snapshot, p: Plan, gen: nat -> string, n: nat, count: nat)
    requires PlainServices(db, p.requiredNames)
    requires Active(db, Routes, p.requiredNames) == []
    requires count == |Active(db, Services, p.requiredNames)| * p.routes
    requires FreshIds(gen, n, count, Keys(Rows(db, Routes), 0))
    ensures |RoutesToCreate(db, p, gen, n)| == count
    ensures Loadable(db, Routes, RoutesToCreate(db, p, gen, n), gen, n, p.requiredNames)
  {
    RouteCount(db, p);
    assert RoutesMissing(db, p) == RequiredRouteNames(db, p);
    RouteKeysOfNew(db, p, gen, n);
    RoutesFit(db, p, gen, n);
    assert ScopeColumn(Routes) == RouteWsId;
    LoadableOf(db, Routes, RoutesToCreate(db, p, gen, n), gen, n, p.requiredNames);
  }

  lemma RoutesStepLoad(o: Outcome, p: Plan, gen: nat -> string, rows: seq<Row>)
    requires o.ok && rows == RoutesToCreate(o.world.db, p, gen, o.world.issued)
    ensures RoutesStep(o, p, gen) == Load(o.world, Routes, rows, |rows|)
  {
  }

  /** With no active route yet, the routes step creates `R` routes per active
      service, drawing one id each. */
  lemma RoutesStepAdds(o: Outcome, p: Plan, gen: nat -> string, count: nat) returns (o': Outcome, rows: seq<Row>)
    requires o.ok && PlainServices(o.world.db, p.requiredNames)
    requires Active(o.world.db, Routes, p.requiredNames) == []
    requires count == |Active(o.world.db, Services, p.requiredNames)| * p.routes
    requires FreshIds(gen, o.world.issued, count, Keys(Rows(o.world.db, Routes), 0))
    ensures o' == RoutesStep(o, p, gen) && |rows| == count
    ensures Loadable(o.world.db, Routes, rows, gen, o.world.issued, p.requiredNames)
    ensures Appended(o, o', Routes, rows, count, p.requiredNames)
  {
    rows := RoutesToCreate(o.world.db, p, gen, o.world.issued);
    RoutesFirst(o.world.db, p, gen, o.world.issued, count);
    LoadAppended(o.world, Routes, rows, count, gen, o.world.issued, p.requiredNames);
    RoutesStepLoad(o, p, gen, rows);
    o' := Load(o.world, Routes, rows, count);
  }

  // ---------------------------------------------------------------------------
  // The consumer step

  lemma ConsumersFit(db: Snapshot, p: Plan, gen: nat -> string, n: nat)
    requires KeyWorkspaces(db, p.requiredNames)
    requires forall k :: n <= k < n + |ConsumersMissing(db, p)| ==> Clean(gen(k))
    ensures Fits(Consumers, ConsumersToCreate(db, p, gen, n))
  {
    var rows := ConsumersToCreate(db, p, gen, n);
    forall j | 0 <= j < |rows| ensures |rows[j]| == |Columns(Consumers)| {
      ConsumerRowOf(db, p, gen, n, j);
    }
  }

  /** With no active consumer yet, every wanted consumer is missing: the step
      computes `C` loadable rows per active workspace. */
  lemma ConsumersFirst(db: Snapshot, p: Plan, gen: nat -> string, n: nat, count: nat)
    requires CleanWorkspaces(db, p.requiredNames)
    requires Active(db, Consumers, p.requiredNames) == []
    requires count == |ActiveWorkspaces(db, p.requiredNames)| * p.consumers
    requires FreshIds(gen, n, count, Keys(Rows(db, Consumers), 0))
    ensures |ConsumersToCreate(db, p, gen, n)| == count
    ensures Loadable(db, Consumers, ConsumersToCreate(db, p, gen, n), gen, n, p.requiredNames)
  {
    ConsumerCount(db, p);
    assert ConsumersMissing(db, p) == RequiredConsumerNames(db, p);
    CleanKeyWorkspaces(db, p.requiredNames);
    ConsumerKeysOfNew(db, p, gen, n);
    ConsumersFit(db, p, gen, n);
    assert ScopeColumn(Consumers) == ConsumerWsId;
    LoadableOf(db, Consumers, ConsumersToCreate(db, p, gen, n), gen, n, p.requiredNames);
  }

  lemma ConsumersStepLoad(o: Outcome, p: Plan, gen: nat -> string, rows: seq<Row>)
    requires o.ok && rows == ConsumersToCreate(o.world.db, p, gen, o.world.issued)
    ensures ConsumersStep(o, p, gen) == Load(o.world, Consumers, rows, |rows|)
  {
  }

  /** With no active consumer yet, the consumers step creates `C` consumers per
      active workspace, drawing one id each. */
  lemma ConsumersStepAdds(o: Outcome, p: Plan, gen: nat -> string, count: nat) returns (o': Outcome, rows: seq<Row>)
    requires o.ok && CleanWorkspaces(o.world.db, p.requiredNames)
    requires Active(o.world.db, Consumers, p.requiredNames) == []
    requires count == |ActiveWorkspaces(o.world.db, p.requiredNames)| * p.consumers
    requires FreshIds(gen, o.world.issued, count, Keys(Rows(o.world.db, Consumers), 0))
    ensures o' == ConsumersStep(o, p, gen) && |rows| == count
    ensures Loadable(o.world.db, Consumers, rows, gen, o.world.issued, p.requiredNames)
    ensures Appended(o, o', Consumers, rows, count, p.requiredNames)
  {
    rows := ConsumersToCreate(o.world.db, p, gen, o.world.issued);
    ConsumersFirst(o.world.db, p, gen, o.world.issued, count);
    LoadAppended(o.world, Consumers, rows, count, gen, o.world.issued, p.requiredNames);
    ConsumersStepLoad(o, p, gen, rows);
    o' := Load(o.world, Consumers, rows, count);
  }

  // ---------------------------------------------------------------------------
  // The plugin step

  /** When every configured plugin has a configuration, so has every wanted plugin. */
  lemma PluginsConfigured(db: Snapshot, p: Plan)
    requires CleanServices(db, p.requiredNames) && CleanPlugins(p.plugins)
    requires forall i :: 0 <= i < |p.plugins| ==> p.plugins[i] in p.configs
    ensures Configured(RequiredPluginNames(db, p), p.configs)
  {
    var m := RequiredPluginNames(db, p);
    forall k | 0 <= k < |m| ensures PluginOf(m[k]) in p.configs {
      assert m[k] in m;
      RequiredPluginNamesAre(db, p, m[k]);
      var s, i :| s in Active(db, Services, p.requiredNames) && 0 <= i < |p.plugins| &&
        m[k] == Key3(p.plugins[i], At(s, SvcId), At(s, SvcWsId));
      ActiveServiceClean(db, p.requiredNames, s);
      CleanNoSeparator(p.plugins[i]);
      CleanNoSeparator(At(s, SvcId));
      CleanNoSeparator(At(s, SvcWsId));
      Key3Split(p.plugins[i], At(s, SvcId), At(s, SvcWsId));
    }
  }

  lemma PluginsFit(db: Snapshot, p: Plan, gen: nat -> string, n: nat, rows: seq<Row>)
    requires CleanServices(db, p.requiredNames) && CleanPlugins(p.plugins)
    requires PluginsToCreate(db, p, gen, n) == Some(rows)
    requires forall k :: n <= k < n + |rows| ==> Clean(gen(k))
    ensures Fits(Plugins, rows)
  {
    forall j | 0 <= j < |rows| ensures |rows[j]| == |Columns(Plugins)| {
      PluginRowOf(db, p, gen, n, rows, j);
    }
  }

  /** With no active plugin yet, every wanted plugin is missing and has a
      configuration: the step computes one loadable row per configured plugin
      and active service. */
  lemma PluginsFirst(db: Snapshot, p: Plan, gen: nat -> string, n: nat, count: nat)
    requires CleanServices(db, p.requiredNames) && CleanPlugins(p.plugins)
    requires forall i :: 0 <= i < |p.plugins| ==> p.plugins[i] in p.configs
    requires Active(db, Plugins, p.requiredNames) == []
    requires count == |Active(db, Services, p.requiredNames)| * |p.plugins|
    requires FreshIds(gen, n, count, Keys(Rows(db, Plugins), 0))
    ensures PluginsToCreate(db, p, gen, n).Some?
    ensures |PluginsToCreate(db, p, gen, n).value| == count
    ensures Loadable(db, Plugins, PluginsToCreate(db, p, gen, n).value, gen, n, p.requiredNames)
  {
    PluginCount(db, p);
    assert PluginsMissing(db, p) == RequiredPluginNames(db, p);
    PluginsConfigured(db, p);
    PluginsLoadable(db, p, gen, n, PluginsToCreate(db, p, gen, n).value);
  }

  /** The plugin rows the step computes on fresh ids are loadable. */
  lemma PluginsLoadable(db: Snapshot, p: Plan, gen: nat -> string, n: nat, rows: seq<Row>)
    requires CleanServices(db, p.requiredNames) && CleanPlugins(p.plugins)
    requires PluginsToCreate(db, p, gen, n) == Some(rows)
    requires FreshIds(gen, n, |rows|, Keys(Rows(db, Plugins), 0))
    ensures Loadable(db, Plugins, rows, gen, n, p.requiredNames)
  {
    PluginKeysOfNew(db, p, gen, n, rows);
    PluginsFit(db, p, gen, n, rows);
    assert ScopeColumn(Plugins) == PluginWsId;
    LoadableOf(db, Plugins, rows, gen, n, p.requiredNames);
  }

  lemma PluginsStepLoad(o: Outcome, p: Plan, gen: nat -> string, rows: seq<Row>)
    requires o.ok && PluginsToCreate(o.world.db, p, gen, o.world.issued) == Some(rows)
    ensures PluginsStep(o, p, gen) == Load(o.world, Plugins, rows, |rows|)
  {
  }

  /** With no active plugin yet and a configuration for every plugin, the
      plugins step creates every configured plugin on every active service,
      drawing one id each. */
  lemma PluginsStepAdds(o: Outcome, p: Plan, gen: nat -> string, count: nat) returns (o': Outcome, rows: seq<Row>)
    requires o.ok && CleanServices(o.world.db, p.requiredNames) && CleanPlugins(p.plugins)
    requires forall i :: 0 <= i < |p.plugins| ==> p.plugins[i] in p.configs
    requires Active(o.world.db, Plugins, p.requiredNames) == []
    requires count == |Active(o.world.db, Services, p.requiredNames)| * |p.plugins|
    requires FreshIds(gen, o.world.issued, count, Keys(Rows(o.world.db, Plugins), 0))
    ensures o' == PluginsStep(o, p, gen) && |rows| == count
    ensures Loadable(o.world.db, Plugins, rows, gen, o.world.issued, p.requiredNames)
    ensures Appended(o, o', Plugins, rows, count, p.requiredNames)
  {
    PluginsFirst(o.world.db, p, gen, o.world.issued, count);
    rows := PluginsToCreate(o.world.db, p, gen, o.world.issued).value;
    LoadAppended(o.world, Plugins, rows, count, gen, o.world.issued, p.requiredNames);
    PluginsStepLoad(o, p, gen, rows);
    o' := Load(o.world, Plugins, rows, count);
  }

  // ---------------------------------------------------------------------------
  // The pass as a whole

  /** The world `__init__` starts from: `count` workspace pairs drawn first. */
  function Start(db: Snapshot, prefix: string, count: nat, gen: nat -> string, log: seq<Op>): (w: World)
    ensures w.db == db && w.issued == count && |w.required| == count
  {
    World(db, NameRows(prefix, "workspace", gen, 0, count), count, log)
  }

  /** The rows each table has gained so far. */
  datatype Gains = Gains(workspaces: seq<Row>, roles: seq<Row>, endpoints: seq<Row>, services: seq<Row>,
                         routes: seq<Row>, consumers: seq<Row>, plugins: seq<Row>)

  const NoGains := Gains([], [], [], [], [], [], [])

  /** The rows `t` has gained. */
  function Added(g: Gains, t: Table): seq<Row>
  {
    match t
    case Workspaces => g.workspaces
    case RbacRoles => g.roles
    case RbacRoleEndpoints => g.endpoints
    case Services => g.services
    case Routes => g.routes
    case Consumers => g.consumers
    case Plugins => g.plugins
  }

  /** `g` with `rows` as what `t` has gained. */
  function With(g: Gains, t: Table, rows: seq<Row>): (g2: Gains)
    ensures Added(g2, t) == rows && forall u :: u != t ==> Added(g2, u) == Added(g, u)
  {
    match t
    case Workspaces => g.(workspaces := rows)
    case RbacRoles => g.(roles := rows)
    case RbacRoleEndpoints => g.(endpoints := rows)
    case Services => g.(services := rows)
    case Routes => g.(routes := rows)
    case Consumers => g.(consumers := rows)
    case Plugins => g.(plugins := rows)
  }

  /** Table `t` of `db` is that of `db0` with `rows` appended, those rows are
      exactly its active rows, and none of them reuses an id stored in `db0`. */
  ghost predicate Grown(db0: Snapshot, db: Snapshot, names: seq<string>, t: Table, rows: seq<Row>)
  {
    Rows(db, t) == Rows(db0, t) + rows && Active(db, t, names) == rows
    && forall x :: x in rows ==> At(x, 0) !in Keys(Rows(db0, t), 0)
  }

  /** Every table has grown by what `g` records for it. */
  ghost predicate Progress(db0: Snapshot, db: Snapshot, names: seq<string>, g: Gains)
  {
    forall t {:trigger Grown(db0, db, names, t, Added(g, t))} :: Grown(db0, db, names, t, Added(g, t))
  }

  /** The workspace rows a first run creates. */
  ghost predicate FirstWorkspaces(ws: seq<Row>, prefix: string, count: nat, gen: nat -> string)
  {
    |ws| == count && forall j :: 0 <= j < count ==> ws[j] == [gen(j), DerivedName(prefix, "workspace", j), Meta]
  }

  /** Under `Progress` the active workspaces are the ones the run added. */
  lemma ProgressWorkspaces(db0: Snapshot, db: Snapshot, names: seq<string>, g: Gains)
    requires Progress(db0, db, names, g)
    ensures ActiveWorkspaces(db, names) == Added(g, Workspaces)
  {
    assert Grown(db0, db, names, Workspaces, Added(g, Workspaces));
    assert ActiveWorkspaces(db, names) == Active(db, Workspaces, names);
  }

  /** Under `Progress` a table the run has not reached is as stored, with no
      active row. */
  lemma ProgressUntouched(db0: Snapshot, db: Snapshot, names: seq<string>, g: Gains, t: Table)
    requires Progress(db0, db, names, g) && Added(g, t) == []
    ensures Rows(db, t) == Rows(db0, t) && Active(db, t, names) == []
  {
    assert Grown(db0, db, names, t, Added(g, t));
  }

  /** The ids a first run draws from position `start` on are new to every table. */
  lemma FirstFresh(db: Snapshot, count: nat, p: Plan, gen: nat -> string, start: nat, k: nat, t: Table)
    requires FreshIds(gen, 0, IdsDrawn(count, p), StoredIds(db)) && start + k <= IdsDrawn(count, p)
    ensures FreshIds(gen, start, k, Keys(Rows(db, t), 0))
  {
    StoredIdsHas(db, t);
    FreshWithin(gen, IdsDrawn(count, p), StoredIds(db), start, k, Keys(Rows(db, t), 0));
  }

  /** A table other than `t` and the workspaces keeps what it has grown by. */
  lemma GrownKept(db0: Snapshot, db: Snapshot, db2: Snapshot, names: seq<string>, u: Table, rows: seq<Row>)
    requires Grown(db0, db, names, u, rows)
    requires Rows(db2, u) == Rows(db, u) && Rows(db2, Workspaces) == Rows(db, Workspaces)
    ensures Grown(db0, db2, names, u, rows)
  {
    ActiveSame(db, db2, u, names);
  }

  /** A table reached for the first time grows by the loadable rows appended. */
  lemma GrownNew(db0: Snapshot, o: Outcome, o2: Outcome, names: seq<string>, t: Table, rows: seq<Row>,
                 used: nat, gen: nat -> string, n: nat)
    requires Grown(db0, o.world.db, names, t, [])
    requires Loadable(o.world.db, t, rows, gen, n, names)
    requires Appended(o, o2, t, rows, used, names)
    ensures Grown(db0, o2.world.db, names, t, rows)
  {
    assert Rows(o.world.db, t) == Rows(db0, t);
    forall x | x in rows ensures At(x, 0) !in Keys(Rows(db0, t), 0) {
      var j :| 0 <= j < |rows| && rows[j] == x;
    }
  }

  /** A bulk insert of loadable rows into a table not reached yet records them. */
  lemma StepProgress(db0: Snapshot, o: Outcome, o2: Outcome, names: seq<string>, g: Gains,
                     t: Table, rows: seq<Row>, used: nat, gen: nat -> string, n: nat)
    requires Progress(db0, o.world.db, names, g) && t != Workspaces && Added(g, t) == []
    requires Loadable(o.world.db, t, rows, gen, n, names)
    requires Appended(o, o2, t, rows, used, names)
    ensures Progress(db0, o2.world.db, names, With(g, t, rows))
  {
    var g2 := With(g, t, rows);
    forall u ensures Grown(db0, o2.world.db, names, u, Added(g2, u)) {
      assert Grown(db0, o.world.db, names, u, Added(g, u));
      if u == t {
        GrownNew(db0, o, o2, names, t, rows, used, gen, n);
      } else {
        GrownKept(db0, o.world.db, o2.world.db, names, u, Added(g, u));
      }
    }
  }

  /** The stored rows of a first run carry none of the new workspace ids. */
  lemma FirstWorkspacesFresh(db: Snapshot, prefix: string, count: nat, p: Plan, gen: nat -> string, ws: seq<Row>)
    requires FreshIds(gen, 0, IdsDrawn(count, p), StoredIds(db)) && FirstWorkspaces(ws, prefix, count, gen)
    ensures forall x :: x in ws ==> At(x, 0) !in Keys(Rows(db, Workspaces), 0)
  {
    FirstFresh(db, count, p, gen, 0, count, Workspaces);
    forall x | x in ws ensures At(x, 0) !in Keys(Rows(db, Workspaces), 0) {
      var j :| 0 <= j < |ws| && ws[j] == x;
      assert At(x, 0) == gen(j);
    }
  }

  /** Once the configured workspaces are appended, they have grown and no
      other table has. */
  lemma FirstProgress(db: Snapshot, db1: Snapshot, required: seq<Row>, names: seq<string>, ws: seq<Row>)
    requires Unclaimed(db, required)
    requires Rows(db1, Workspaces) == Rows(db, Workspaces) + ws
    requires forall u :: u != Workspaces ==> Rows(db1, u) == Rows(db, u)
    requires ActiveWorkspaces(db1, names) == ws
    requires Column(ws, WsId) == Column(required, WsId) && Column(ws, WsName) == Column(required, WsName)
    requires forall x :: x in ws ==> At(x, 0) !in Keys(Rows(db, Workspaces), 0)
    ensures Progress(db, db1, names, With(NoGains, Workspaces, ws))
  {
    var g := With(NoGains, Workspaces, ws);
    forall u ensures Grown(db, db1, names, u, Added(g, u)) {
      if u == Workspaces {
        assert Active(db1, Workspaces, names) == ActiveWorkspaces(db1, names);
      } else {
        FirstInactive(db, db1, required, names, u);
        assert Grown(db, db1, names, u, []);
      }
    }
  }

  /** The workspace step of a first run. */
  lemma FirstWorkspacesStep(db: Snapshot, prefix: string, count: nat, p: Plan, gen: nat -> string, log: seq<Op>)
    returns (o1: Outcome, ws: seq<Row>)
    requires FirstRun(db, prefix, count, p, gen)
    ensures o1 == WorkspacesStep(Outcome(Start(db, prefix, count, gen, log), true))
    ensures o1.ok && o1.world.issued == count && FirstWorkspaces(ws, prefix, count, gen)
    ensures Progress(db, o1.world.db, p.requiredNames, With(NoGains, Workspaces, ws))
  {
    var w := Start(db, prefix, count, gen, log);
    WorkspacesStepAdds(w, prefix, count, p.requiredNames, gen);
    o1 := WorkspacesStep(Outcome(w, true));
    ws := WorkspaceRows(w.required, Rows(db, Workspaces));
    FirstWorkspaceColumns(ws, prefix, gen, count);
    FirstWorkspacesFresh(db, prefix, count, p, gen, ws);
    FirstProgress(db, o1.world.db, w.required, p.requiredNames, ws);
  }

  /** The roles step of a first run: one role per new workspace. */
  lemma FirstRolesStep(db: Snapshot, count: nat, p: Plan, gen: nat -> string, o1: Outcome, g: Gains)
    returns (o2: Outcome, roles: seq<Row>)
    requires FreshIds(gen, 0, IdsDrawn(count, p), StoredIds(db))
    requires o1.ok && o1.world.issued == count && |Added(g, Workspaces)| == count && Added(g, RbacRoles) == []
    requires Progress(db, o1.world.db, p.requiredNames, g)
    ensures o2 == RolesStep(o1, p, gen) && o2.ok && o2.world.issued == count + count
    ensures roles == RoleRows(Added(g, Workspaces), gen, count)
    ensures Progress(db, o2.world.db, p.requiredNames, With(g, RbacRoles, roles))
  {
    var names := p.requiredNames;
    ProgressWorkspaces(db, o1.world.db, names, g);
    ProgressUntouched(db, o1.world.db, names, g, RbacRoles);
    FirstFresh(db, count, p, gen, count, count, RbacRoles);
    o2, roles := RolesStepAdds(o1, p, gen);
    StepProgress(db, o1, o2, names, g, RbacRoles, roles, |roles|, gen, count);
  }

  /** The endpoints step of a first run: one endpoint per new role. */
  lemma FirstEndpointsStep(db: Snapshot, count: nat, p: Plan, gen: nat -> string, o2: Outcome, g: Gains)
    returns (o3: Outcome, eps: seq<Row>)
    requires FreshIds(gen, 0, IdsDrawn(count, p), StoredIds(db))
    requires o2.ok && o2.world.issued == count + count && Added(g, RbacRoleEndpoints) == []
    requires var ws := Added(g, Workspaces);
      |ws| == count && KeysDistinct(ws, WsId) && Added(g, RbacRoles) == RoleRows(ws, gen, count)
    requires Progress(db, o2.world.db, p.requiredNames, g)
    ensures o3 == EndpointsStep(o2, p) && o3.ok && o3.world.issued == count + count && |eps| == count
    ensures Progress(db, o3.world.db, p.requiredNames, With(g, RbacRoleEndpoints, eps))
  {
    var names := p.requiredNames;
    ProgressWorkspaces(db, o2.world.db, names, g);
    ProgressUntouched(db, o2.world.db, names, g, RbacRoleEndpoints);
    assert Grown(db, o2.world.db, names, RbacRoles, Added(g, RbacRoles));
    FirstFresh(db, count, p, gen, count, count, RbacRoleEndpoints);
    o3, eps := EndpointsStepAdds(o2, p, gen, count);
    StepProgress(db, o2, o3, names, g, RbacRoleEndpoints, eps, 0, gen, count);
  }

  /** The services step of a first run: `S` services per new workspace. */
  lemma FirstServicesStep(db: Snapshot, prefix: string, count: nat, p: Plan, gen: nat -> string,
                          o3: Outcome, g: Gains)
    returns (o4: Outcome, svcs: seq<Row>)
    requires FreshIds(gen, 0, IdsDrawn(count, p), StoredIds(db)) && Clean(prefix) && DefaultsClean(p.defaults)
    requires o3.ok && o3.world.issued == count + count && Added(g, Services) == []
    requires FirstWorkspaces(Added(g, Workspaces), prefix, count, gen)
    requires Progress(db, o3.world.db, p.requiredNames, g)
    ensures o4 == ServicesStep(o3, p, gen) && o4.ok
    ensures o4.world.issued == count + count + Created(Services, count, p)
    ensures |svcs| == Created(Services, count, p) && CleanServiceRows(svcs)
    ensures Progress(db, o4.world.db, p.requiredNames, With(g, Services, svcs))
  {
    var names := p.requiredNames;
    ProgressWorkspaces(db, o3.world.db, names, g);
    ProgressUntouched(db, o3.world.db, names, g, Services);
    FirstFresh(db, count, p, gen, 0, count, Workspaces);
    FirstClean(o3.world.db, names, prefix, count, gen);
    FirstFresh(db, count, p, gen, count + count, Created(Services, count, p), Services);
    o4, svcs := ServicesStepAdds(o3, p, gen, Created(Services, count, p));
    StepProgress(db, o3, o4, names, g, Services, svcs, Created(Services, count, p), gen, o3.world.issued);
  }

  /** The routes step of a first run: `R` routes per new service. */
  lemma FirstRoutesStep(db: Snapshot, count: nat, p: Plan, gen: nat -> string, o4: Outcome, g: Gains)
    returns (o5: Outcome, routes: seq<Row>)
    requires FreshIds(gen, 0, IdsDrawn(count, p), StoredIds(db))
    requires o4.ok && o4.world.issued == count + count + Created(Services, count, p) && Added(g, Routes) == []
    requires |Added(g, Services)| == Created(Services, count, p) && CleanServiceRows(Added(g, Services))
    requires Progress(db, o4.world.db, p.requiredNames, g)
    ensures o5 == RoutesStep(o4, p, gen) && o5.ok
    ensures o5.world.issued == count + count + Created(Services, count, p) + Created(Routes, count, p)
    ensures |routes| == Created(Routes, count, p)
    ensures Progress(db, o5.world.db, p.requiredNames, With(g, Routes, routes))
  {
    var names := p.requiredNames;
    var n := o4.world.issued;
    assert Grown(db, o4.world.db, names, Services, Added(g, Services));
    CleanServicesFrom(o4.world.db, names);
    ProgressUntouched(db, o4.world.db, names, g, Routes);
    FirstFresh(db, count, p, gen, n, Created(Routes, count, p), Routes);
    o5, routes := RoutesStepAdds(o4, p, gen, Created(Routes, count, p));
    StepProgress(db, o4, o5, names, g, Routes, routes, Created(Routes, count, p), gen, n);
  }

  /** The consumers step of a first run: `C` consumers per new workspace. */
  lemma FirstConsumersStep(db: Snapshot, prefix: string, count: nat, p: Plan, gen: nat -> string,
                           o5: Outcome, g: Gains)
    returns (o6: Outcome, consumers: seq<Row>)
    requires FreshIds(gen, 0, IdsDrawn(count, p), StoredIds(db)) && Clean(prefix)
    requires o5.ok && o5.world.issued == count + count + Created(Services, count, p) + Created(Routes, count, p)
    requires Added(g, Consumers) == [] && FirstWorkspaces(Added(g, Workspaces), prefix, count, gen)
    requires Progress(db, o5.world.db, p.requiredNames, g)
    ensures o6 == ConsumersStep(o5, p, gen) && o6.ok
    ensures o6.world.issued == o5.world.issued + Created(Consumers, count, p)
    ensures |consumers| == Created(Consumers, count, p)
    ensures Progress(db, o6.world.db, p.requiredNames, With(g, Consumers, consumers))
  {
    var names := p.requiredNames;
    var n := o5.world.issued;
    ProgressWorkspaces(db, o5.world.db, names, g);
    ProgressUntouched(db, o5.world.db, names, g, Consumers);
    FirstFresh(db, count, p, gen, 0, count, Workspaces);
    FirstClean(o5.world.db, names, prefix, count, gen);
    FirstFresh(db, count, p, gen, n, Created(Consumers, count, p), Consumers);
    o6, consumers := ConsumersStepAdds(o5, p, gen, Created(Consumers, count, p));
    StepProgress(db, o5, o6, names, g, Consumers, consumers, Created(Consumers, count, p), gen, n);
  }

  /** The plugins step of a first run: every configured plugin on every new
      service. */
  lemma FirstPluginsStep(db: Snapshot, count: nat, p: Plan, gen: nat -> string, o6: Outcome, g: Gains)
    returns (o7: Outcome, plugins: seq<Row>)
    requires FreshIds(gen, 0, IdsDrawn(count, p), StoredIds(db))
    requires CleanPlugins(p.plugins) && forall i :: 0 <= i < |p.plugins| ==> p.plugins[i] in p.configs
    requires o6.ok && o6.world.issued + Created(Plugins, count, p) == IdsDrawn(count, p) && Added(g, Plugins) == []
    requires |Added(g, Services)| == Created(Services, count, p) && CleanServiceRows(Added(g, Services))
    requires Progress(db, o6.world.db, p.requiredNames, g)
    ensures o7 == PluginsStep(o6, p, gen) && o7.ok && o7.world.issued == IdsDrawn(count, p)
    ensures |plugins| == Created(Plugins, count, p)
    ensures Progress(db, o7.world.db, p.requiredNames, With(g, Plugins, plugins))
  {
    var names := p.requiredNames;
    var n := o6.world.issued;
    assert Grown(db, o6.world.db, names, Services, Added(g, Services));
    CleanServicesFrom(o6.world.db, names);
    ProgressUntouched(db, o6.world.db, names, g, Plugins);
    FirstFresh(db, count, p, gen, n, Created(Plugins, count, p), Plugins);
    o7, plugins := PluginsStepAdds(o6, p, gen, Created(Plugins, count, p));
    StepProgress(db, o6, o7, names, g, Plugins, plugins, Created(Plugins, count, p), gen, n);
  }

  /** The new workspace ids are distinct. */
  lemma FirstWorkspacesDistinct(db: Snapshot, prefix: string, count: nat, p: Plan, gen: nat -> string, ws: seq<Row>)
    requires FreshIds(gen, 0, IdsDrawn(count, p), StoredIds(db)) && FirstWorkspaces(ws, prefix, count, gen)
    ensures KeysDistinct(ws, WsId)
  {
    forall k, l | 0 <= k < l < |ws| ensures At(ws[k], WsId) != At(ws[l], WsId) {
      assert At(ws[k], WsId) == gen(k) && At(ws[l], WsId) == gen(l);
    }
  }

  /** The role and endpoint steps of a first run. */
  lemma FirstRolesEndpoints(db: Snapshot, prefix: string, count: nat, p: Plan, gen: nat -> string,
                            o1: Outcome, ws: seq<Row>)
    returns (o2: Outcome, o3: Outcome, roles: seq<Row>, eps: seq<Row>)
    requires FreshIds(gen, 0, IdsDrawn(count, p), StoredIds(db))
    requires o1.ok && o1.world.issued == count && FirstWorkspaces(ws, prefix, count, gen)
    requires Progress(db, o1.world.db, p.requiredNames, With(NoGains, Workspaces, ws))
    ensures o2 == RolesStep(o1, p, gen) && o3 == EndpointsStep(o2, p)
    ensures o3.ok && o3.world.issued == count + count && |roles| == count && |eps| == count
    ensures Progress(db, o3.world.db, p.requiredNames, With(With(With(NoGains, Workspaces, ws), RbacRoles, roles), RbacRoleEndpoints, eps))
  {
    FirstWorkspacesDistinct(db, prefix, count, p, gen, ws);
    var g1 := With(NoGains, Workspaces, ws);
    o2, roles := FirstRolesStep(db, count, p, gen, o1, g1);
    o3, eps := FirstEndpointsStep(db, count, p, gen, o2, With(g1, RbacRoles, roles));
  }

  /** The workspace, role and endpoint steps of a first run. */
  lemma FirstPhaseOne(db: Snapshot, prefix: string, count: nat, p: Plan, gen: nat -> string, log: seq<Op>)
    returns (o1: Outcome, o2: Outcome, o3: Outcome, g: Gains)
    requires FirstRun(db, prefix, count, p, gen)
    ensures o1 == WorkspacesStep(Outcome(Start(db, prefix, count, gen, log), true))
    ensures o2 == RolesStep(o1, p, gen) && o3 == EndpointsStep(o2, p)
    ensures o3.ok && o3.world.issued == count + count
    ensures g.services == [] && g.routes == [] && g.consumers == [] && g.plugins == []
    ensures FirstWorkspaces(g.workspaces, prefix, count, gen) && |g.roles| == count && |g.endpoints| == count
    ensures Progress(db, o3.world.db, p.requiredNames, g)
  {
    var ws, roles, eps;
    o1, ws := FirstWorkspacesStep(db, prefix, count, p, gen, log);
    o2, o3, roles, eps := FirstRolesEndpoints(db, prefix, count, p, gen, o1, ws);
    g := With(With(With(NoGains, Workspaces, ws), RbacRoles, roles), RbacRoleEndpoints, eps);
  }

  /** The services and routes steps of a first run. */
  lemma FirstPhaseTwo(db: Snapshot, prefix: string, count: nat, p: Plan, gen: nat -> string,
                      o3: Outcome, g: Gains)
    returns (o4: Outcome, o5: Outcome, g': Gains)
    requires FirstRun(db, prefix, count, p, gen)
    requires o3.ok && o3.world.issued == count + count
    requires g.services == [] && g.routes == [] && FirstWorkspaces(g.workspaces, prefix, count, gen)
    requires Progress(db, o3.world.db, p.requiredNames, g)
    ensures o4 == ServicesStep(o3, p, gen) && o5 == RoutesStep(o4, p, gen)
    ensures o5.ok && o5.world.issued == count + count + Created(Services, count, p) + Created(Routes, count, p)
    ensures g' == g.(services := g'.services, routes := g'.routes)
    ensures |g'.services| == Created(Services, count, p) && CleanServiceRows(g'.services)
    ensures |g'.routes| == Created(Routes, count, p)
    ensures Progress(db, o5.world.db, p.requiredNames, g')
  {
    var svcs, routes;
    o4, svcs := FirstServicesStep(db, prefix, count, p, gen, o3, g);
    var g4 := With(g, Services, svcs);
    o5, routes := FirstRoutesStep(db, count, p, gen, o4, g4);
    g' := With(g4, Routes, routes);
  }

  /** The consumers and plugins steps of a first run. */
  lemma FirstPhaseThree(db: Snapshot, prefix: string, count: nat, p: Plan, gen: nat -> string,
                        o5: Outcome, g: Gains)
    returns (o6: Outcome, o7: Outcome, g': Gains)
    requires FirstRun(db, prefix, count, p, gen)
    requires o5.ok && o5.world.issued == count + count + Created(Services, count, p) + Created(Routes, count, p)
    requires g.consumers == [] && g.plugins == [] && FirstWorkspaces(g.workspaces, prefix, count, gen)
    requires |g.services| == Created(Services, count, p) && CleanServiceRows(g.services)
    requires Progress(db, o5.world.db, p.requiredNames, g)
    ensures o6 == ConsumersStep(o5, p, gen) && o7 == PluginsStep(o6, p, gen)
    ensures o7.ok && o7.world.issued == IdsDrawn(count, p)
    ensures g' == g.(consumers := g'.consumers, plugins := g'.plugins)
    ensures |g'.consumers| == Created(Consumers, count, p) && |g'.plugins| == Created(Plugins, count, p)
    ensures Progress(db, o7.world.db, p.requiredNames, g')
  {
    var consumers, plugins;
    o6, consumers := FirstConsumersStep(db, prefix, count, p, gen, o5, g);
    var g6 := With(g, Consumers, consumers);
    o7, plugins := FirstPluginsStep(db, count, p, gen, o6, g6);
    g' := With(g6, Plugins, plugins);
  }

  /** Gains with the first-run size in every field have it for every table. */
  lemma GainsCounted(g: Gains, count: nat, p: Plan)
    requires |g.workspaces| == count && |g.roles| == count && |g.endpoints| == count
    requires |g.services| == Created(Services, count, p) && |g.routes| == Created(Routes, count, p)
    requires |g.consumers| == Created(Consumers, count, p) && |g.plugins| == Created(Plugins, count, p)
    ensures forall t :: |Added(g, t)| == Created(t, count, p)
  {
  }

  /** The create pass of a first run step by step: it goes through, draws
      `IdsDrawn` ids, and each table grows by `Created` rows. */
  lemma CreatePassFirst(db: Snapshot, prefix: string, count: nat, p: Plan, gen: nat -> string, log: seq<Op>)
    returns (g: Gains)
    requires FirstRun(db, prefix, count, p, gen)
    ensures var o := CreatePass(Start(db, prefix, count, gen, log), p, gen);
      o.ok && o.world.issued == IdsDrawn(count, p) && Progress(db, o.world.db, p.requiredNames, g)
    ensures forall t :: |Added(g, t)| == Created(t, count, p)
  {
    var o1, o2, o3, g3 := FirstPhaseOne(db, prefix, count, p, gen, log);
    var o4, o5, g5 := FirstPhaseTwo(db, prefix, count, p, gen, o3, g3);
    var o6, o7;
    o6, o7, g := FirstPhaseThree(db, prefix, count, p, gen, o5, g5);
    CreatePassChain(Start(db, prefix, count, gen, log), p, gen, o1, o2, o3, o4, o5, o6, o7);
    GainsCounted(g, count, p);
  }

  /** On a first run the create pass goes through, draws exactly `IdsDrawn`
      ids, and appends to each table `t` `Created(t)` rows after the stored
      ones; those rows are then exactly its active rows. With `W` workspaces
      that is `W` workspaces, roles and endpoints, `W * S` services,
      `W * S * R` routes, `W * C` consumers and `W * S * |P|` plugins. */
  lemma CreatePassCounts(db: Snapshot, prefix: string, count: nat, p: Plan, gen: nat -> string, log: seq<Op>, t: Table)
    requires FirstRun(db, prefix, count, p, gen)
    ensures var o := CreatePass(Start(db, prefix, count, gen, log), p, gen);
      o.ok && o.world.issued == IdsDrawn(count, p)
      && |Rows(o.world.db, t)| == |Rows(db, t)| + Created(t, count, p)
      && Rows(o.world.db, t)[..|Rows(db, t)|] == Rows(db, t)
      && |Active(o.world.db, t, p.requiredNames)| == Created(t, count, p)
  {
    var o := CreatePass(Start(db, prefix, count, gen, log), p, gen);
    var g := CreatePassFirst(db, prefix, count, p, gen, log);
    assert Grown(db, o.world.db, p.requiredNames, t, Added(g, t));
    assert Rows(o.world.db, t)[..|Rows(db, t)|] == Rows(db, t);
  }

  /** The configured workspace names depend on the prefix and the count only,
      not on the ids drawn with them. */
  lemma RequiredNamesFixed(prefix: string, count: nat, gen: nat -> string, gen2: nat -> string)
    ensures Column(NameRows(prefix, "workspace", gen, 0, count), WsName)
         == Column(NameRows(prefix, "workspace", gen2, 0, count), WsName)
  {
  }

  /** A first run followed by a delete run for the same prefix and workspace
      count, whatever ids that second run draws, gives every table back the
      rows it had before the first. */
  lemma CreateThenDelete(db: Snapshot, prefix: string, count: nat, p: Plan, gen: nat -> string, log: seq<Op>,
                         gen2: nat -> string, w: World, t: Table)
    requires FirstRun(db, prefix, count, p, gen)
    requires w.db == CreatePass(Start(db, prefix, count, gen, log), p, gen).world.db
    ensures Rows(DeletePass(w, Column(NameRows(prefix, "workspace", gen2, 0, count), WsName)).db, t) == Rows(db, t)
  {
    RequiredNamesFixed(prefix, count, gen, gen2);
    var g := CreatePassFirst(db, prefix, count, p, gen, log);
    assert Grown(db, w.db, p.requiredNames, t, Added(g, t));
    DeletePassTable(w, p.requiredNames, t);
    GrownRemoved(db, w.db, p.requiredNames, t, Added(g, t));
  }

  /** Deleting the active rows of a grown table leaves the rows it had before. */
  lemma GrownRemoved(db0: Snapshot, db: Snapshot, names: seq<string>, t: Table, rows: seq<Row>)
    requires Grown(db0, db, names, t, rows)
    ensures Survivors(db, t, names) == Rows(db0, t)
  {
    var ids := set x | x in ActiveIds(db, t, names);
    forall x | x in rows ensures At(x, 0) in ids {
      ColumnHas(rows, 0, At(x, 0));
    }
    forall x | x in Rows(db0, t) ensures At(x, 0) !in ids {
      ColumnHas(rows, 0, At(x, 0));
      assert At(x, 0) in Keys(Rows(db0, t), 0);
    }
    RemoveAppended(Rows(db0, t), rows, 0, ids);
  }
}
