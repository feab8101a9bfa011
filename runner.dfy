/** The importer object: it holds the configuration and the wanted workspaces,
    draws fresh ids, reads the tables and issues the bulk inserts and deletes.
    Every method is proved against the functions of `Passes`. */
module Runner {
  import opened Strings
  import opened Store
  import opened Reconcile
  import opened Hydrate
  import opened Passes
  import opened Steps
  import opened Scans

  class Runner {
    /** The Kong database. */
    const store: Store
    /** The id source: the `n`-th id drawn is `gen(n)`. */
    const gen: nat -> string
    /** How many ids have been drawn. */
    var issued: nat

    const prefix: string
    const delete: bool
    const numberOfServices: nat
    const numberOfRoutes: nat
    const numberOfConsumers: nat
    /** The configured plugin names, in configuration order. */
    const plugins: seq<string>
    /** The serialised `config` of every plugin that has one. */
    const configs: map<string, string>
    const svcDefaults: SvcDefaults

    /** The configured `[id, name]` pairs (with the metadata once created). */
    var requiredWorkspaces: seq<Row>
    var requiredWorkspaceNames: seq<string>

    ghost predicate Valid()
      reads this, store
    {
      store.Valid()
    }

    /** What the passes read from the configuration. */
    function Config(): Plan
      reads this`requiredWorkspaceNames
    {
      Plan(requiredWorkspaceNames, numberOfServices, numberOfRoutes, numberOfConsumers,
           plugins, configs, svcDefaults)
    }

    /** Everything the passes read and change. */
    ghost function State(): World
      reads this, store
    {
      World(store.db, requiredWorkspaces, issued, store.log)
    }

    /** `__init__`: read the configuration, generate the wanted workspaces, then
        run the delete pass or the create pass against `db`. */
    constructor (db: Store, gen: nat -> string, prefix: string, workspaces: nat,
                 services: nat, routes: nat, consumers: nat,
                 plugins: seq<string>, configs: map<string, string>,
                 data: map<string, string>, delete: bool)
      requires db.Valid()
      modifies db
      ensures Valid() && store == db && this.gen == gen
      ensures requiredWorkspaceNames == Column(NameRows(prefix, "workspace", gen, 0, workspaces), 1)
      ensures Config() == Plan(requiredWorkspaceNames, services, routes, consumers, plugins, configs, GetSvcDefaults(data))
      ensures var w0 := World(old(db.db), NameRows(prefix, "workspace", gen, 0, workspaces), workspaces, old(db.log));
              State() == if delete then DeletePass(w0, requiredWorkspaceNames)
                         else CreatePass(w0, Config(), gen).world
    {
      store := db;
      this.gen := gen;
      issued := 0;
      this.prefix := prefix;
      this.delete := delete;
      numberOfServices := services;
      numberOfRoutes := routes;
      numberOfConsumers := consumers;
      this.plugins := plugins;
      this.configs := configs;
      svcDefaults := GetSvcDefaults(data);
      requiredWorkspaces := [];
      requiredWorkspaceNames := [];
      new;
      requiredWorkspaces := GenWorkspaces(workspaces);
      requiredWorkspaceNames := Column(requiredWorkspaces, 1);
      ghost var w0 := World(old(db.db), NameRows(prefix, "workspace", gen, 0, workspaces), workspaces, old(db.log));
      assert State() == w0;
      if delete {
        DeleteEntities();
      } else {
        var _ := CreateEntities();
      }
    }

    /** `uuid.uuid4()`. */
    method Uuid() returns (id: string)
      modifies this`issued
      ensures issued == old(issued) + 1
      ensures id == gen(old(issued))
    {
      id := gen(issued);
      issued := issued + 1;
    }

    /** `name_gen`. */
    method NameGen(quantity: nat, entity: string) returns (data: seq<Row>)
      modifies this`issued
      ensures issued == old(issued) + quantity
      ensures data == NameRows(prefix, entity, gen, old(issued), quantity)
    {
      data := [];
      for e := 0 to quantity
        invariant issued == old(issued) + e
        invariant data == NameRows(prefix, entity, gen, old(issued), e)
      {
        var id := Uuid();
        NameRowsSnoc(prefix, entity, gen, old(issued), e);
        data := data + [[id, DerivedName(prefix, entity, e)]];
      }
    }

    /** `gen_workspaces`. */
    method GenWorkspaces(quantity: nat) returns (data: seq<Row>)
      modifies this`issued
      ensures issued == old(issued) + quantity
      ensures data == NameRows(prefix, "workspace", gen, old(issued), quantity)
    {
      data := NameGen(quantity, "workspace");
    }

    // -------------------------------------------------------------------------
    // The wanted composites

    /** `get_requried_svc_names`. */
    method RequiredServiceNames() returns (data: seq<string>)
      ensures data == Reconcile.RequiredServiceNames(store.db, Config())
    {
      var ws := ActiveWorkspaces(store.db, requiredWorkspaceNames);
      data := [];
      for j := 0 to |ws|
        invariant data == Flatten(ServiceBlocks(ws[..j], numberOfServices))
      {
        var done := data;
        for i := 0 to numberOfServices
          invariant data == done + ServiceBlock(ws[j], numberOfServices)[..i]
        {
          ServiceBlockGrow(done, data, ws[j], numberOfServices, i);
          data := data + [Key2(DerivedName(At(ws[j], WsName), "svc", i), At(ws[j], WsId))];
        }
        ServiceBlocksGrow(done, data, ws, numberOfServices, j);
      }
      assert ws[..|ws|] == ws;
    }

    /** `get_requried_consumer_names`. */
    method RequiredConsumerNames() returns (data: seq<string>)
      ensures data == Reconcile.RequiredConsumerNames(store.db, Config())
    {
      var ws := ActiveWorkspaces(store.db, requiredWorkspaceNames);
      data := [];
      for j := 0 to |ws|
        invariant data == Flatten(ConsumerBlocks(ws[..j], numberOfConsumers))
      {
        var done := data;
        for i := 0 to numberOfConsumers
          invariant data == done + ConsumerBlock(ws[j], numberOfConsumers)[..i]
        {
          ConsumerBlockGrow(done, data, ws[j], numberOfConsumers, i);
          data := data + [Key2(DerivedName(At(ws[j], WsName), "consumer", i), At(ws[j], WsId))];
        }
        ConsumerBlocksGrow(done, data, ws, numberOfConsumers, j);
      }
      assert ws[..|ws|] == ws;
    }

    /** `get_requried_route_names`. */
    method RequiredRouteNames() returns (data: seq<string>)
      ensures data == Reconcile.RequiredRouteNames(store.db, Config())
    {
      var svcs := Active(store.db, Services, requiredWorkspaceNames);
      data := [];
      for j := 0 to |svcs|
        invariant data == Flatten(RouteBlocks(svcs[..j], numberOfRoutes))
      {
        var done := data;
        var s := svcs[j];
        for i := 0 to numberOfRoutes
          invariant data == done + RouteBlock(s, numberOfRoutes)[..i]
        {
          RouteBlockGrow(done, data, s, numberOfRoutes, i);
          data := data + [Key3(DerivedName(At(s, SvcName), "route", i), At(s, SvcId), At(s, SvcWsId))];
        }
        RouteBlocksGrow(done, data, svcs, numberOfRoutes, j);
      }
      assert svcs[..|svcs|] == svcs;
    }

    /** `get_requried_plugin_names`. */
    method RequiredPluginNames() returns (data: seq<string>)
      ensures data == Reconcile.RequiredPluginNames(store.db, Config())
    {
      var svcs := Active(store.db, Services, requiredWorkspaceNames);
      data := [];
      for j := 0 to |svcs|
        invariant data == Flatten(PluginBlocks(svcs[..j], plugins))
      {
        var done := data;
        var s := svcs[j];
        for i := 0 to |plugins|
          invariant data == done + PluginBlock(s, plugins)[..i]
        {
          PluginBlockGrow(done, data, s, plugins, i);
          data := data + [Key3(plugins[i], At(s, SvcId), At(s, SvcWsId))];
        }
        PluginBlocksGrow(done, data, svcs, plugins, j);
      }
      assert svcs[..|svcs|] == svcs;
    }

    // -------------------------------------------------------------------------
    // The rows to create

    /** `workspaces_to_create`: the configured pairs whose name is not stored yet.
        The returned lists are the configured lists themselves, so appending the
        metadata to them extends the configured pairs too. */
    method WorkspacesToCreate() returns (raw: seq<Row>)
      modifies this`requiredWorkspaces
      ensures raw == WorkspaceRows(old(requiredWorkspaces), Rows(store.db, Workspaces))
      ensures requiredWorkspaces == WithMeta(old(requiredWorkspaces), Rows(store.db, Workspaces))
    {
      var ws := Rows(store.db, Workspaces);
      var current := Column(ws, WsName);
      var before := requiredWorkspaces;
      raw := [];
      for i := 0 to |before|
        invariant |requiredWorkspaces| == |before|
        invariant forall k :: 0 <= k < i ==> requiredWorkspaces[k] == WithMeta(before, ws)[k]
        invariant forall k :: i <= k < |before| ==> requiredWorkspaces[k] == before[k]
        invariant raw == WorkspaceRows(before[..i], ws)
      {
        var v := before[i];
        ColumnKeys(ws, WsName, At(v, 1));
        if At(v, 1) !in current {
          WorkspaceAdded(before, i, ws, raw);
          WithMetaAdded(before, ws, i);
          requiredWorkspaces := requiredWorkspaces[i := v + [Meta]];
          raw := raw + [v + [Meta]];
        } else {
          WorkspaceKept(before, i, ws, raw);
          WithMetaKept(before, ws, i);
        }
      }
      assert before[..|before|] == before;
    }

    /** `rbac_roles_to_create`. */
    method RbacRolesToCreate() returns (rows: seq<Row>)
      modifies this`issued
      ensures issued == old(issued) + |rows|
      ensures rows == RolesToCreate(store.db, Config(), gen, old(issued))
    {
      var todo := RolesAbsent(store.db, Config());
      rows := [];
      for i := 0 to |todo|
        invariant issued == old(issued) + i
        invariant rows == RoleRows(todo[..i], gen, old(issued))
      {
        var id := Uuid();
        RoleRowsTake(todo, i, gen, old(issued));
        rows := rows + [RoleRow(todo[i], id)];
      }
      assert todo[..|todo|] == todo;
    }

    /** `services_to_create`. */
    method ServicesToCreate() returns (rows: seq<Row>)
      modifies this`issued
      ensures issued == old(issued) + |rows|
      ensures rows == Passes.ServicesToCreate(store.db, Config(), gen, old(issued))
    {
      var active := ServiceKeys(Active(store.db, Services, requiredWorkspaceNames));
      var required := RequiredServiceNames();
      ServiceNamesSplit(store.db, Config());
      rows := [];
      for i := 0 to |required|
        invariant Splits(Missing(required[..i], active), 2)
        invariant issued == old(issued) + |rows|
        invariant rows == ServiceRows(Missing(required[..i], active), gen, old(issued), svcDefaults)
      {
        var v := required[i];
        if v in active {
          ScanFound(required, i, active, 2);
        } else {
          ghost var next := issued;
          var id := Uuid();
          ServicesScanAdded(required, i, active, gen, old(issued), svcDefaults, rows, next, id);
          rows := rows + [ServiceRow(v, id, svcDefaults)];
        }
      }
      assert required[..|required|] == required;
    }

    /** `consumers_to_create`. */
    method ConsumersToCreate() returns (rows: seq<Row>)
      modifies this`issued
      ensures issued == old(issued) + |rows|
      ensures rows == Passes.ConsumersToCreate(store.db, Config(), gen, old(issued))
    {
      var active := ConsumerKeys(Active(store.db, Consumers, requiredWorkspaceNames));
      var required := RequiredConsumerNames();
      ConsumerNamesSplit(store.db, Config());
      rows := [];
      for i := 0 to |required|
        invariant Splits(Missing(required[..i], active), 2)
        invariant issued == old(issued) + |rows|
        invariant rows == ConsumerRows(Missing(required[..i], active), gen, old(issued))
      {
        var v := required[i];
        if v in active {
          ScanFound(required, i, active, 2);
        } else {
          ghost var next := issued;
          var id := Uuid();
          ConsumersScanAdded(required, i, active, gen, old(issued), rows, next, id);
          rows := rows + [ConsumerRow(v, id)];
        }
      }
      assert required[..|required|] == required;
    }

    /** `routes_to_create`: split on `,`, then turn each `%` back into a comma. */
    method RoutesToCreate() returns (rows: seq<Row>)
      modifies this`issued
      ensures issued == old(issued) + |rows|
      ensures rows == Passes.RoutesToCreate(store.db, Config(), gen, old(issued))
    {
      var active := RouteKeys(Active(store.db, Routes, requiredWorkspaceNames));
      var required := RequiredRouteNames();
      RouteNamesSplit(store.db, Config());
      rows := [];
      for i := 0 to |required|
        invariant Splits(Missing(required[..i], active), 3)
        invariant issued == old(issued) + |rows|
        invariant rows == RouteRows(Missing(required[..i], active), gen, old(issued))
      {
        var v := required[i];
        if v in active {
          ScanFound(required, i, active, 3);
          continue;
        }
        ghost var next := issued;
        var id := Uuid();
        RoutesScanAdded(required, i, active, gen, old(issued), rows, next, id);
        var x := Split(RouteData(v, id), ',');
        var z := ReplaceEach(x, "%", ",");
        rows := rows + [z];
      }
      assert required[..|required|] == required;
    }

    /** `plugins_to_create`: as for routes, then the `CONFIG` placeholder becomes
        the plugin's serialised configuration. A plugin without one fails the
        run after its id was drawn. */
    method PluginsToCreate() returns (r: Option<seq<Row>>)
      modifies this`issued
      ensures r == Passes.PluginsToCreate(store.db, Config(), gen, old(issued))
      ensures issued == old(issued) +
        if r.Some? then |r.value| else ConfigGap(PluginsMissing(store.db, Config()), configs) + 1
    {
      var active := PluginKeys(Active(store.db, Plugins, requiredWorkspaceNames));
      var required := RequiredPluginNames();
      PluginNamesSplit(store.db, Config());
      var rows := [];
      for i := 0 to |required|
        invariant Splits(Missing(required[..i], active), 3)
        invariant Configured(Missing(required[..i], active), configs)
        invariant issued == old(issued) + |rows|
        invariant rows == PluginRows(Missing(required[..i], active), gen, old(issued), configs)
      {
        var v := required[i];
        if v in active {
          ScanFound(required, i, active, 3);
          continue;
        }
        ghost var next := issued;
        var id := Uuid();
        var x := ReplaceEach(Split(PluginData(v, id), ','), "%", ",");
        var p := Split(v, '^');
        if p[0] !in configs {
          PluginsStop(store.db, Config(), gen, old(issued), required, i, active);
          return None;
        }
        PluginsScanAdded(required, i, active, gen, old(issued), configs, rows, next, id);
        x := ReplaceEach(x, "CONFIG", configs[p[0]]);
        rows := rows + [x];
      }
      PluginsEnd(store.db, Config(), gen, old(issued), required, active, rows);
      return Some(rows);
    }

    // -------------------------------------------------------------------------
    // The create pass

    method CreateWorkspaces() returns (ok: bool)
      requires Valid()
      modifies this`requiredWorkspaces, store
      ensures Valid()
      ensures Outcome(State(), ok) == WorkspacesStep(Outcome(old(State()), true))
    {
      var needed := WorkspacesToCreate();
      ok := store.Insert(Workspaces, needed);
    }

    method CreateRbacRoles() returns (ok: bool)
      requires Valid()
      modifies this`issued, store
      ensures Valid()
      ensures Outcome(State(), ok) == RolesStep(Outcome(old(State()), true), Config(), gen)
    {
      var rows := RbacRolesToCreate();
      ok := store.Insert(RbacRoles, rows);
      RolesStepLoads(old(State()), Config(), gen, rows, State(), ok);
    }

    method CreateRbacRoleEndpoints() returns (ok: bool)
      requires Valid()
      modifies store
      ensures Valid()
      ensures Outcome(State(), ok) == EndpointsStep(Outcome(old(State()), true), Config())
    {
      var rows := EndpointsToCreate(store.db, Config());
      if rows.None? {
        return false;
      }
      ok := store.Insert(RbacRoleEndpoints, rows.value);
    }

    method CreateServices() returns (ok: bool)
      requires Valid()
      modifies this`issued, store
      ensures Valid()
      ensures Outcome(State(), ok) == ServicesStep(Outcome(old(State()), true), Config(), gen)
    {
      var rows := ServicesToCreate();
      ok := store.Insert(Services, rows);
      ServicesStepLoads(old(State()), Config(), gen, rows, State(), ok);
    }

    method CreateRoutes() returns (ok: bool)
      requires Valid()
      modifies this`issued, store
      ensures Valid()
      ensures Outcome(State(), ok) == RoutesStep(Outcome(old(State()), true), Config(), gen)
    {
      var rows := RoutesToCreate();
      ok := store.Insert(Routes, rows);
      RoutesStepLoads(old(State()), Config(), gen, rows, State(), ok);
    }

    method CreateConsumers() returns (ok: bool)
      requires Valid()
      modifies this`issued, store
      ensures Valid()
      ensures Outcome(State(), ok) == ConsumersStep(Outcome(old(State()), true), Config(), gen)
    {
      var rows := ConsumersToCreate();
      ok := store.Insert(Consumers, rows);
      ConsumersStepLoads(old(State()), Config(), gen, rows, State(), ok);
    }

    method CreatePlugins() returns (ok: bool)
      requires Valid()
      modifies this`issued, store
      ensures Valid()
      ensures Outcome(State(), ok) == PluginsStep(Outcome(old(State()), true), Config(), gen)
    {
      var rows := PluginsToCreate();
      if rows.None? {
        PluginsStepStops(old(State()), Config(), gen, State());
        return false;
      }
      ok := store.Insert(Plugins, rows.value);
      PluginsStepLoads(old(State()), Config(), gen, rows.value, State(), ok);
    }

    /** `create_entities`: `ok` is false when a step raised and ended the run. */
    method CreateEntities() returns (ok: bool)
      requires Valid()
      modifies this`issued, this`requiredWorkspaces, store
      ensures Valid()
      ensures Outcome(State(), ok) == CreatePass(old(State()), Config(), gen)
    {
      ghost var w0 := State();
      ok := CreateWorkspaces();
      ghost var o1 := Outcome(State(), ok);
      if !ok {
        Stopped(o1, Config(), gen);
        CreatePassChain(w0, Config(), gen, o1, o1, o1, o1, o1, o1, o1);
        return;
      }
      ok := CreateRbacRoles();
      ghost var o2 := Outcome(State(), ok);
      if !ok {
        Stopped(o2, Config(), gen);
        CreatePassChain(w0, Config(), gen, o1, o2, o2, o2, o2, o2, o2);
        return;
      }
      ok := CreateRbacRoleEndpoints();
      ghost var o3 := Outcome(State(), ok);
      if !ok {
        Stopped(o3, Config(), gen);
        CreatePassChain(w0, Config(), gen, o1, o2, o3, o3, o3, o3, o3);
        return;
      }
      ok := CreateServices();
      ghost var o4 := Outcome(State(), ok);
      if !ok {
        Stopped(o4, Config(), gen);
        CreatePassChain(w0, Config(), gen, o1, o2, o3, o4, o4, o4, o4);
        return;
      }
      ok := CreateRoutes();
      ghost var o5 := Outcome(State(), ok);
      if !ok {
        Stopped(o5, Config(), gen);
        CreatePassChain(w0, Config(), gen, o1, o2, o3, o4, o5, o5, o5);
        return;
      }
      ok := CreateConsumers();
      ghost var o6 := Outcome(State(), ok);
      if !ok {
        Stopped(o6, Config(), gen);
        CreatePassChain(w0, Config(), gen, o1, o2, o3, o4, o5, o6, o6);
        return;
      }
      ok := CreatePlugins();
      ghost var o7 := Outcome(State(), ok);
      CreatePassChain(w0, Config(), gen, o1, o2, o3, o4, o5, o6, o7);
    }

    // -------------------------------------------------------------------------
    // The delete pass

    method DeletePlugins()
      requires Valid()
      modifies store
      ensures Valid()
      ensures State() == DeleteStep(old(State()), Plugins, requiredWorkspaceNames)
    {
      var ids := ActiveIds(store.db, Plugins, requiredWorkspaceNames);
      store.Delete(Plugins, ids, 0);
    }

    method DeleteConsumers()
      requires Valid()
      modifies store
      ensures Valid()
      ensures State() == DeleteStep(old(State()), Consumers, requiredWorkspaceNames)
    {
      var ids := ActiveIds(store.db, Consumers, requiredWorkspaceNames);
      store.Delete(Consumers, ids, 0);
    }

    method DeleteRoutes()
      requires Valid()
      modifies store
      ensures Valid()
      ensures State() == DeleteStep(old(State()), Routes, requiredWorkspaceNames)
    {
      var ids := ActiveIds(store.db, Routes, requiredWorkspaceNames);
      store.Delete(Routes, ids, 0);
    }

    method DeleteServices()
      requires Valid()
      modifies store
      ensures Valid()
      ensures State() == DeleteStep(old(State()), Services, requiredWorkspaceNames)
    {
      var ids := ActiveIds(store.db, Services, requiredWorkspaceNames);
      store.Delete(Services, ids, 0);
    }

    /** Role endpoints are deleted by their `role_id`. */
    method DeleteRbacRoleEndpoints()
      requires Valid()
      modifies store
      ensures Valid()
      ensures State() == DeleteStep(old(State()), RbacRoleEndpoints, requiredWorkspaceNames)
    {
      var ids := ActiveIds(store.db, RbacRoleEndpoints, requiredWorkspaceNames);
      store.Delete(RbacRoleEndpoints, ids, EndpointRoleId);
    }

    method DeleteRbacRoles()
      requires Valid()
      modifies store
      ensures Valid()
      ensures State() == DeleteStep(old(State()), RbacRoles, requiredWorkspaceNames)
    {
      var ids := ActiveIds(store.db, RbacRoles, requiredWorkspaceNames);
      store.Delete(RbacRoles, ids, 0);
    }

    method DeleteWorkspaces()
      requires Valid()
      modifies store
      ensures Valid()
      ensures State() == DeleteStep(old(State()), Workspaces, requiredWorkspaceNames)
    {
      var ids := ActiveIds(store.db, Workspaces, requiredWorkspaceNames);
      store.Delete(Workspaces, ids, 0);
    }

    /** `delete_entities`. */
    method DeleteEntities()
      requires Valid()
      modifies store
      ensures Valid()
      ensures State() == DeletePass(old(State()), requiredWorkspaceNames)
    {
      DeletePlugins();
      DeleteConsumers();
      DeleteRoutes();
      DeleteServices();
      DeleteRbacRoleEndpoints();
      DeleteRbacRoles();
      DeleteWorkspaces();
    }
  }
}
