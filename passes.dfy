/** The rows each `*_to_create` computes, and the create and delete passes as
    functions of the state they start from. The state is the world the importer
    acts on: the tables, the configured workspace pairs (which the workspace step
    extends in place), how many fresh ids have been drawn, and the bulk
    operations issued. */
module Passes {
  import opened Strings
  import opened Store
  import opened Reconcile
  import opened Hydrate

  datatype Option<T> = None | Some(value: T)

  /** The fixed workspace metadata the importer attaches to each new workspace. */
  const Meta: string := "{\"color\": \"#3894f0\",\"thumbnail\": null}"

  const RoleName: string := "workspace-super-admin"

  /** `"Full access to all endpoints in the {} workspace".format(name)`. */
  function RoleComment(name: string): string
  {
    "Full access to all endpoints in the " + name + " workspace"
  }

  /** Ids `gen(start) .. gen(start + count - 1)` are clean, pairwise distinct and
      outside `taken`: what a collision-resistant id source guarantees. */
  ghost predicate FreshIds(gen: nat -> string, start: nat, count: nat, taken: set<string>)
  {
    (forall k :: start <= k < start + count ==> Clean(gen(k)) && gen(k) !in taken)
    && (forall k, l :: start <= k < l < start + count ==> gen(k) != gen(l))
  }

  /** `name_gen`: `quantity` pairs of a fresh id and `<prefix>-<entity>-<e>`. */
  function NameRows(prefix: string, entity: string, gen: nat -> string, start: nat, quantity: nat): (rows: seq<Row>)
    ensures |rows| == quantity
    ensures forall e :: 0 <= e < quantity ==> rows[e] == [gen(start + e), DerivedName(prefix, entity, e)]
  {
    seq(quantity, e requires 0 <= e < quantity => [gen(start + e), DerivedName(prefix, entity, e)])
  }

  // ---------------------------------------------------------------------------
  // Workspaces

  /** `raw`: the configured `[id, name]` pairs whose name no stored workspace has. */
  function WorkspacesAbsent(required: seq<Row>, ws: seq<Row>): seq<Row>
  {
    Remove(required, 1, Keys(ws, WsName))
  }

  /** `workspaces_to_create`: each absent pair with the metadata appended. */
  function WorkspaceRows(required: seq<Row>, ws: seq<Row>): (rows: seq<Row>)
    ensures |rows| == |WorkspacesAbsent(required, ws)|
    ensures forall i :: 0 <= i < |rows| ==> rows[i] == WorkspacesAbsent(required, ws)[i] + [Meta]
  {
    var raw := WorkspacesAbsent(required, ws);
    seq(|raw|, i requires 0 <= i < |raw| => raw[i] + [Meta])
  }

  /** The configured pairs after `workspaces_to_create`: the lists it returned are
      the very lists the runner holds, so each absent pair now carries the metadata. */
  function WithMeta(required: seq<Row>, ws: seq<Row>): (out: seq<Row>)
    ensures |out| == |required|
  {
    seq(|required|, i requires 0 <= i < |required| =>
      if At(required[i], 1) in Keys(ws, WsName) then required[i] else required[i] + [Meta])
  }

  // ---------------------------------------------------------------------------
  // RBAC

  function RoleRow(w: Row, id: string): Row
  {
    [id, RoleName, RoleComment(At(w, WsName)), "false", At(w, WsId)]
  }

  /** The active workspaces whose id no stored role has. */
  function RolesAbsent(db: Snapshot, p: Plan): seq<Row>
  {
    Remove(ActiveWorkspaces(db, p.requiredNames), WsId, Keys(Rows(db, RbacRoles), RoleWsId))
  }

  /** One super-admin role per workspace in `todo`, the `i`-th taking id `gen(start + i)`. */
  function RoleRows(todo: seq<Row>, gen: nat -> string, start: nat): (rows: seq<Row>)
    ensures |rows| == |todo|
    ensures forall i :: 0 <= i < |todo| ==> rows[i] == RoleRow(todo[i], gen(start + i))
  {
    seq(|todo|, i requires 0 <= i < |todo| => RoleRow(todo[i], gen(start + i)))
  }

  /** `rbac_roles_to_create`: one role per active workspace without one. */
  function RolesToCreate(db: Snapshot, p: Plan, gen: nat -> string, start: nat): (rows: seq<Row>)
    ensures |rows| == |RolesAbsent(db, p)|
  {
    RoleRows(RolesAbsent(db, p), gen, start)
  }

  /** `{ws_id: id for role in roles}[ws]`: the id of the last role of that
      workspace, or nothing (a `KeyError` in the source). */
  function RoleFor(roles: seq<Row>, ws: string): (r: Option<string>)
    ensures r.None? <==> forall k :: 0 <= k < |roles| ==> At(roles[k], RoleWsId) != ws
    ensures r.Some? ==> exists k :: 0 <= k < |roles| && At(roles[k], RoleWsId) == ws && At(roles[k], RoleId) == r.value
                                   && (forall j :: k < j < |roles| ==> At(roles[j], RoleWsId) != ws)
    decreases |roles|
  {
    if roles == [] then None
    else
      var last := roles[|roles| - 1];
      var init := roles[..|roles| - 1];
      if At(last, RoleWsId) == ws then Some(At(last, RoleId)) else RoleFor(init, ws)
  }

  /** The active workspaces whose name no stored endpoint has. */
  function EndpointsAbsent(db: Snapshot, p: Plan): seq<Row>
  {
    Remove(ActiveWorkspaces(db, p.requiredNames), WsName, Keys(Rows(db, RbacRoleEndpoints), EndpointWorkspace))
  }

  /** Every workspace lacking an endpoint has an active role to attach it to. */
  predicate RolesPresent(db: Snapshot, p: Plan)
  {
    var todo := EndpointsAbsent(db, p);
    forall i :: 0 <= i < |todo| ==> RoleFor(Active(db, RbacRoles, p.requiredNames), At(todo[i], WsId)).Some?
  }

  /** The endpoint of workspace `w`: its role, its name, `*`, `15`, `false`. */
  function EndpointRow(roles: seq<Row>, w: Row): Row
    requires RoleFor(roles, At(w, WsId)).Some?
  {
    [RoleFor(roles, At(w, WsId)).value, At(w, WsName), "*", "15", "false"]
  }

  /** `rbac_role_endpoints_to_create`: one endpoint per active workspace without
      one, on that workspace's role; nothing when some such workspace has no role. */
  function EndpointsToCreate(db: Snapshot, p: Plan): (r: Option<seq<Row>>)
    ensures r.Some? <==> RolesPresent(db, p)
    ensures r.Some? ==> |r.value| == |EndpointsAbsent(db, p)|
  {
    var todo := EndpointsAbsent(db, p);
    var roles := Active(db, RbacRoles, p.requiredNames);
    if RolesPresent(db, p) then Some(seq(|todo|, i requires 0 <= i < |todo| && RolesPresent(db, p) => EndpointRow(roles, todo[i])))
    else None
  }

  // ---------------------------------------------------------------------------
  // Services, routes, consumers, plugins

  function ServicesMissing(db: Snapshot, p: Plan): seq<string>
  {
    Missing(RequiredServiceNames(db, p), ServiceKeys(Active(db, Services, p.requiredNames)))
  }

  function ConsumersMissing(db: Snapshot, p: Plan): seq<string>
  {
    Missing(RequiredConsumerNames(db, p), ConsumerKeys(Active(db, Consumers, p.requiredNames)))
  }

  function RoutesMissing(db: Snapshot, p: Plan): seq<string>
  {
    Missing(RequiredRouteNames(db, p), RouteKeys(Active(db, Routes, p.requiredNames)))
  }

  function PluginsMissing(db: Snapshot, p: Plan): seq<string>
  {
    Missing(RequiredPluginNames(db, p), PluginKeys(Active(db, Plugins, p.requiredNames)))
  }

  /** Every composite in `m` has at least `n` pieces. */
  predicate Splits(m: seq<string>, n: nat)
  {
    forall k :: 0 <= k < |m| ==> n <= |Split(m[k], '^')|
  }

  lemma MissingSplit(db: Snapshot, p: Plan)
    ensures Splits(ServicesMissing(db, p), 2) && Splits(ConsumersMissing(db, p), 2)
    ensures Splits(RoutesMissing(db, p), 3) && Splits(PluginsMissing(db, p), 3)
  {
    RequiredNamesSplit(db, p);
  }

  /** A list whose every element has at least `n` pieces, stated index by index. */
  lemma SplitsAll(m: seq<string>, n: nat)
    requires forall x :: x in m ==> n <= |Split(x, '^')|
    ensures Splits(m, n)
  {
    forall k | 0 <= k < |m| ensures n <= |Split(m[k], '^')| {
      assert m[k] in m;
    }
  }

  lemma ServiceNamesSplit(db: Snapshot, p: Plan)
    ensures Splits(RequiredServiceNames(db, p), 2)
  {
    RequiredNamesSplit(db, p);
    SplitsAll(RequiredServiceNames(db, p), 2);
  }

  lemma ConsumerNamesSplit(db: Snapshot, p: Plan)
    ensures Splits(RequiredConsumerNames(db, p), 2)
  {
    RequiredNamesSplit(db, p);
    SplitsAll(RequiredConsumerNames(db, p), 2);
  }

  lemma RouteNamesSplit(db: Snapshot, p: Plan)
    ensures Splits(RequiredRouteNames(db, p), 3)
  {
    RequiredNamesSplit(db, p);
    SplitsAll(RequiredRouteNames(db, p), 3);
  }

  lemma PluginNamesSplit(db: Snapshot, p: Plan)
    ensures Splits(RequiredPluginNames(db, p), 3)
  {
    RequiredNamesSplit(db, p);
    SplitsAll(RequiredPluginNames(db, p), 3);
  }

  /** The hydrated rows of the composites `m`, the `i`-th taking id `gen(start + i)`. */
  function ServiceRows(m: seq<string>, gen: nat -> string, start: nat, d: SvcDefaults): (rows: seq<Row>)
    requires Splits(m, 2)
    ensures |rows| == |m|
  {
    seq(|m|, i requires 0 <= i < |m| => ServiceRow(m[i], gen(start + i), d))
  }

  function ConsumerRows(m: seq<string>, gen: nat -> string, start: nat): (rows: seq<Row>)
    requires Splits(m, 2)
    ensures |rows| == |m|
  {
    seq(|m|, i requires 0 <= i < |m| => ConsumerRow(m[i], gen(start + i)))
  }

  function RouteRows(m: seq<string>, gen: nat -> string, start: nat): (rows: seq<Row>)
    requires Splits(m, 3)
    ensures |rows| == |m|
  {
    seq(|m|, i requires 0 <= i < |m| => RouteRow(m[i], gen(start + i)))
  }

  /** The plugin a wanted composite names: its first piece. */
  function PluginOf(comp: string): string
  {
    Split(comp, '^')[0]
  }

  /** Every composite in `m` names a plugin with a configuration. */
  predicate Configured(m: seq<string>, configs: map<string, string>)
  {
    forall k :: 0 <= k < |m| ==> PluginOf(m[k]) in configs
  }

  function PluginRows(m: seq<string>, gen: nat -> string, start: nat, configs: map<string, string>): (rows: seq<Row>)
    requires Splits(m, 3) && Configured(m, configs)
    ensures |rows| == |m|
  {
    seq(|m|, i requires 0 <= i < |m| => PluginRow(m[i], gen(start + i), configs[PluginOf(m[i])]))
  }

  /** `services_to_create`: one row per missing service, ids drawn in order. */
  function ServicesToCreate(db: Snapshot, p: Plan, gen: nat -> string, start: nat): (rows: seq<Row>)
    ensures |rows| == |ServicesMissing(db, p)|
  {
    MissingSplit(db, p);
    ServiceRows(ServicesMissing(db, p), gen, start, p.defaults)
  }

  /** `consumers_to_create`. */
  function ConsumersToCreate(db: Snapshot, p: Plan, gen: nat -> string, start: nat): (rows: seq<Row>)
    ensures |rows| == |ConsumersMissing(db, p)|
  {
    MissingSplit(db, p);
    ConsumerRows(ConsumersMissing(db, p), gen, start)
  }

  /** `routes_to_create`. */
  function RoutesToCreate(db: Snapshot, p: Plan, gen: nat -> string, start: nat): (rows: seq<Row>)
    ensures |rows| == |RoutesMissing(db, p)|
  {
    MissingSplit(db, p);
    RouteRows(RoutesMissing(db, p), gen, start)
  }

  /** The position of the first composite whose plugin has no configuration
      (`len(m)` when all have one). */
  function ConfigGap(m: seq<string>, configs: map<string, string>): (k: nat)
    ensures k <= |m|
    ensures forall i :: 0 <= i < k ==> PluginOf(m[i]) in configs
    ensures k < |m| ==> PluginOf(m[k]) !in configs
    ensures k == |m| <==> Configured(m, configs)
    decreases |m|
  {
    if m == [] || PluginOf(m[0]) !in configs then 0 else 1 + ConfigGap(m[1..], configs)
  }

  /** Behind a configured prefix, the first unconfigured composite is the gap. */
  lemma {:induction false} GapAfter(a: seq<string>, v: string, b: seq<string>, configs: map<string, string>)
    requires Configured(a, configs) && PluginOf(v) !in configs
    ensures ConfigGap(a + [v] + b, configs) == |a|
    decreases |a|
  {
    var m := a + [v] + b;
    if a == [] {
      assert m[0] == v;
    } else {
      assert m[0] == a[0];
      assert m[1..] == a[1..] + [v] + b;
      GapAfter(a[1..], v, b, configs);
    }
  }

  /** `plugins_to_create`: one row per missing plugin with its configuration, or
      nothing when some missing plugin has no `config` (a `KeyError`). */
  function PluginsToCreate(db: Snapshot, p: Plan, gen: nat -> string, start: nat): (r: Option<seq<Row>>)
    ensures r.Some? <==> Configured(PluginsMissing(db, p), p.configs)
    ensures r.Some? ==> |r.value| == |PluginsMissing(db, p)|
  {
    MissingSplit(db, p);
    var m := PluginsMissing(db, p);
    if Configured(m, p.configs) then Some(PluginRows(m, gen, start, p.configs)) else None
  }

  // ---------------------------------------------------------------------------
  // The passes

  /** Everything a pass reads and changes. */
  datatype World = World(db: Snapshot, required: seq<Row>, issued: nat, log: seq<Op>)

  /** The world after a step, and whether the run goes on. */
  datatype Outcome = Outcome(world: World, ok: bool)

  /** One bulk insert after drawing `used` ids: logged in any case, applied only
      when every row has the table's width. */
  ghost function Load(w: World, t: Table, rows: seq<Row>, used: nat): Outcome
  {
    var logged := w.(issued := w.issued + used, log := w.log + [Create(t, |rows|)]);
    if Fits(t, rows) then Outcome(logged.(db := Inserted(w.db, t, rows)), true)
    else Outcome(logged, false)
  }

  ghost function WorkspacesStep(o: Outcome): Outcome
  {
    if !o.ok then o
    else
      var ws := Rows(o.world.db, Workspaces);
      Load(o.world.(required := WithMeta(o.world.required, ws)), Workspaces,
           WorkspaceRows(o.world.required, ws), 0)
  }

  ghost function RolesStep(o: Outcome, p: Plan, gen: nat -> string): Outcome
  {
    if !o.ok then o
    else
      var rows := RolesToCreate(o.world.db, p, gen, o.world.issued);
      Load(o.world, RbacRoles, rows, |rows|)
  }

  ghost function EndpointsStep(o: Outcome, p: Plan): Outcome
  {
    if !o.ok then o
    else
      match EndpointsToCreate(o.world.db, p)
      case None => Outcome(o.world, false)
      case Some(rows) => Load(o.world, RbacRoleEndpoints, rows, 0)
  }

  ghost function ServicesStep(o: Outcome, p: Plan, gen: nat -> string): Outcome
  {
    if !o.ok then o
    else
      var rows := ServicesToCreate(o.world.db, p, gen, o.world.issued);
      Load(o.world, Services, rows, |rows|)
  }

  ghost function RoutesStep(o: Outcome, p: Plan, gen: nat -> string): Outcome
  {
    if !o.ok then o
    else
      var rows := RoutesToCreate(o.world.db, p, gen, o.world.issued);
      Load(o.world, Routes, rows, |rows|)
  }

  ghost function ConsumersStep(o: Outcome, p: Plan, gen: nat -> string): Outcome
  {
    if !o.ok then o
    else
      var rows := ConsumersToCreate(o.world.db, p, gen, o.world.issued);
      Load(o.world, Consumers, rows, |rows|)
  }

  /** A plugin without configuration fails after its id was drawn. */
  ghost function PluginsStep(o: Outcome, p: Plan, gen: nat -> string): Outcome
  {
    if !o.ok then o
    else
      match PluginsToCreate(o.world.db, p, gen, o.world.issued)
      case None =>
        var gap := ConfigGap(PluginsMissing(o.world.db, p), p.configs);
        Outcome(o.world.(issued := o.world.issued + gap + 1), false)
      case Some(rows) => Load(o.world, Plugins, rows, |rows|)
  }

  /** The roles step after the rows it computes: one COPY of them. */
  lemma RolesStepLoads(w: World, p: Plan, gen: nat -> string, rows: seq<Row>, w1: World, ok: bool)
    requires rows == RolesToCreate(w.db, p, gen, w.issued)
    requires ok == Fits(RbacRoles, rows) && w1.db == (if ok then Inserted(w.db, RbacRoles, rows) else w.db)
    requires w1.log == w.log + [Create(RbacRoles, |rows|)]
    requires w1.required == w.required && w1.issued == w.issued + |rows|
    ensures Outcome(w1, ok) == RolesStep(Outcome(w, true), p, gen)
  {
  }

  /** The services step after the rows it computes: one COPY of them. */
  lemma ServicesStepLoads(w: World, p: Plan, gen: nat -> string, rows: seq<Row>, w1: World, ok: bool)
    requires rows == ServicesToCreate(w.db, p, gen, w.issued)
    requires ok == Fits(Services, rows) && w1.db == (if ok then Inserted(w.db, Services, rows) else w.db)
    requires w1.log == w.log + [Create(Services, |rows|)]
    requires w1.required == w.required && w1.issued == w.issued + |rows|
    ensures Outcome(w1, ok) == ServicesStep(Outcome(w, true), p, gen)
  {
  }

  /** The routes step after the rows it computes: one COPY of them. */
  lemma RoutesStepLoads(w: World, p: Plan, gen: nat -> string, rows: seq<Row>, w1: World, ok: bool)
    requires rows == RoutesToCreate(w.db, p, gen, w.issued)
    requires ok == Fits(Routes, rows) && w1.db == (if ok then Inserted(w.db, Routes, rows) else w.db)
    requires w1.log == w.log + [Create(Routes, |rows|)]
    requires w1.required == w.required && w1.issued == w.issued + |rows|
    ensures Outcome(w1, ok) == RoutesStep(Outcome(w, true), p, gen)
  {
  }

  /** The consumers step after the rows it computes: one COPY of them. */
  lemma ConsumersStepLoads(w: World, p: Plan, gen: nat -> string, rows: seq<Row>, w1: World, ok: bool)
    requires rows == ConsumersToCreate(w.db, p, gen, w.issued)
    requires ok == Fits(Consumers, rows) && w1.db == (if ok then Inserted(w.db, Consumers, rows) else w.db)
    requires w1.log == w.log + [Create(Consumers, |rows|)]
    requires w1.required == w.required && w1.issued == w.issued + |rows|
    ensures Outcome(w1, ok) == ConsumersStep(Outcome(w, true), p, gen)
  {
  }

  /** The plugins step when every missing plugin has a configuration: one COPY. */
  lemma PluginsStepLoads(w: World, p: Plan, gen: nat -> string, rows: seq<Row>, w1: World, ok: bool)
    requires PluginsToCreate(w.db, p, gen, w.issued) == Some(rows)
    requires ok == Fits(Plugins, rows) && w1.db == (if ok then Inserted(w.db, Plugins, rows) else w.db)
    requires w1.log == w.log + [Create(Plugins, |rows|)]
    requires w1.required == w.required && w1.issued == w.issued + |rows|
    ensures Outcome(w1, ok) == PluginsStep(Outcome(w, true), p, gen)
  {
  }

  /** The plugins step when a missing plugin has no configuration: the run stops
      with the ids drawn up to and including that plugin's. */
  lemma PluginsStepStops(w: World, p: Plan, gen: nat -> string, w1: World)
    requires PluginsToCreate(w.db, p, gen, w.issued) == None
    requires w1.db == w.db && w1.log == w.log && w1.required == w.required
    requires w1.issued == w.issued + ConfigGap(PluginsMissing(w.db, p), p.configs) + 1
    ensures Outcome(w1, false) == PluginsStep(Outcome(w, true), p, gen)
  {
  }

  /** The tables in the order `create_entities` fills them: every table after
      the ones its rows refer to. */
  const CreateOrder: seq<Table> := [Workspaces, RbacRoles, RbacRoleEndpoints, Services, Routes, Consumers, Plugins]

  /** The tables in the order `delete_entities` empties them. */
  const DeleteOrder: seq<Table> := [Plugins, Consumers, Routes, Services, RbacRoleEndpoints, RbacRoles, Workspaces]

  /** The create step that fills `t`. */
  ghost function CreateStep(t: Table, o: Outcome, p: Plan, gen: nat -> string): Outcome
  {
    match t
    case Workspaces => WorkspacesStep(o)
    case RbacRoles => RolesStep(o, p, gen)
    case RbacRoleEndpoints => EndpointsStep(o, p)
    case Services => ServicesStep(o, p, gen)
    case Routes => RoutesStep(o, p, gen)
    case Consumers => ConsumersStep(o, p, gen)
    case Plugins => PluginsStep(o, p, gen)
  }

  /** The create steps for `ts`, one after the other. */
  ghost function CreateSteps(ts: seq<Table>, o: Outcome, p: Plan, gen: nat -> string): Outcome
    decreases |ts|
  {
    if ts == [] then o else CreateSteps(ts[1..], CreateStep(ts[0], o, p, gen), p, gen)
  }

  /** `create_entities`: the seven kinds in dependency order, stopping at the
      first failure. */
  ghost function CreatePass(w: World, p: Plan, gen: nat -> string): Outcome
  {
    var o1 := CreateStep(Workspaces, Outcome(w, true), p, gen);
    var o2 := CreateStep(RbacRoles, o1, p, gen);
    var o3 := CreateStep(RbacRoleEndpoints, o2, p, gen);
    var o4 := CreateStep(Services, o3, p, gen);
    var o5 := CreateStep(Routes, o4, p, gen);
    var o6 := CreateStep(Consumers, o5, p, gen);
    CreateStep(Plugins, o6, p, gen)
  }

  /** The pass through the outcomes of its steps. */
  lemma CreatePassChain(w: World, p: Plan, gen: nat -> string, o1: Outcome, o2: Outcome, o3: Outcome,
                        o4: Outcome, o5: Outcome, o6: Outcome, o7: Outcome)
    requires o1 == WorkspacesStep(Outcome(w, true)) && o2 == RolesStep(o1, p, gen)
    requires o3 == EndpointsStep(o2, p) && o4 == ServicesStep(o3, p, gen)
    requires o5 == RoutesStep(o4, p, gen) && o6 == ConsumersStep(o5, p, gen)
    requires o7 == PluginsStep(o6, p, gen)
    ensures CreatePass(w, p, gen) == o7
  {
  }

  /** After a failure every later step leaves the outcome as it is. */
  lemma Stopped(o: Outcome, p: Plan, gen: nat -> string)
    requires !o.ok
    ensures RolesStep(o, p, gen) == o && EndpointsStep(o, p) == o && ServicesStep(o, p, gen) == o
    ensures RoutesStep(o, p, gen) == o && ConsumersStep(o, p, gen) == o && PluginsStep(o, p, gen) == o
  {
  }

  /** The create pass runs the create step of every table of `CreateOrder`, in
      that order. */
  lemma CreatePassInOrder(w: World, p: Plan, gen: nat -> string)
    ensures CreatePass(w, p, gen) == CreateSteps(CreateOrder, Outcome(w, true), p, gen)
  {
    CreateStepsSeven(Workspaces, RbacRoles, RbacRoleEndpoints, Services, Routes, Consumers, Plugins,
                     Outcome(w, true), p, gen);
  }

  /** A non-empty list of steps: its first step, then the others. */
  lemma CreateStepsFirst(ts: seq<Table>, o: Outcome, p: Plan, gen: nat -> string)
    requires ts != []
    ensures CreateSteps(ts, o, p, gen) == CreateSteps(ts[1..], CreateStep(ts[0], o, p, gen), p, gen)
  {
  }

  /** Seven steps, one after the other. */
  lemma {:induction false} CreateStepsSeven(t1: Table, t2: Table, t3: Table, t4: Table, t5: Table, t6: Table,
                                            t7: Table, o: Outcome, p: Plan, gen: nat -> string)
    ensures CreateSteps([t1, t2, t3, t4, t5, t6, t7], o, p, gen)
         == CreateStep(t7, CreateStep(t6, CreateStep(t5, CreateStep(t4, CreateStep(t3,
              CreateStep(t2, CreateStep(t1, o, p, gen), p, gen), p, gen), p, gen), p, gen), p, gen), p, gen)
  {
    var o1 := CreateStep(t1, o, p, gen);
    var o2 := CreateStep(t2, o1, p, gen);
    var o3 := CreateStep(t3, o2, p, gen);
    var o4 := CreateStep(t4, o3, p, gen);
    var o5 := CreateStep(t5, o4, p, gen);
    var o6 := CreateStep(t6, o5, p, gen);
    CreateStepsFirst([t1, t2, t3, t4, t5, t6, t7], o, p, gen);
    assert [t1, t2, t3, t4, t5, t6, t7][1..] == [t2, t3, t4, t5, t6, t7];
    CreateStepsFirst([t2, t3, t4, t5, t6, t7], o1, p, gen);
    assert [t2, t3, t4, t5, t6, t7][1..] == [t3, t4, t5, t6, t7];
    CreateStepsFirst([t3, t4, t5, t6, t7], o2, p, gen);
    assert [t3, t4, t5, t6, t7][1..] == [t4, t5, t6, t7];
    CreateStepsFirst([t4, t5, t6, t7], o3, p, gen);
    assert [t4, t5, t6, t7][1..] == [t5, t6, t7];
    CreateStepsFirst([t5, t6, t7], o4, p, gen);
    assert [t5, t6, t7][1..] == [t6, t7];
    CreateStepsFirst([t6, t7], o5, p, gen);
    assert [t6, t7][1..] == [t7];
    CreateStepsFirst([t7], o6, p, gen);
  }

  /** Every table is filled exactly once. */
  lemma CreateOrderComplete(t: Table)
    ensures multiset(CreateOrder)[t] == 1
  {
  }

  /** The delete pass empties the tables in exactly the reverse of the create order. */
  lemma DeleteOrderReversed()
    ensures |DeleteOrder| == |CreateOrder|
    ensures forall i :: 0 <= i < |DeleteOrder| ==> DeleteOrder[i] == CreateOrder[|CreateOrder| - 1 - i]
  {
  }

  /** One bulk delete of the active rows of `t`, by their first column. */
  function DeleteStep(w: World, t: Table, names: seq<string>): World
  {
    var ids := ActiveIds(w.db, t, names);
    w.(db := Deleted(w.db, t, ids, 0), log := w.log + [Delete(t, |ids|)])
  }

  /** The delete steps for `ts`, one after the other. */
  function DeleteSteps(w: World, ts: seq<Table>, names: seq<string>): World
    decreases |ts|
  {
    if ts == [] then w else DeleteSteps(DeleteStep(w, ts[0], names), ts[1..], names)
  }

  /** `delete_entities`: the reverse of the create order. */
  function DeletePass(w: World, names: seq<string>): World
  {
    var w1 := DeleteStep(w, Plugins, names);
    var w2 := DeleteStep(w1, Consumers, names);
    var w3 := DeleteStep(w2, Routes, names);
    var w4 := DeleteStep(w3, Services, names);
    var w5 := DeleteStep(w4, RbacRoleEndpoints, names);
    var w6 := DeleteStep(w5, RbacRoles, names);
    DeleteStep(w6, Workspaces, names)
  }

  /** The delete pass runs the delete step of every table of `DeleteOrder`, in
      that order. */
  lemma DeletePassInOrder(w: World, names: seq<string>)
    ensures DeletePass(w, names) == DeleteSteps(w, DeleteOrder, names)
  {
    DeleteStepsSeven(w, Plugins, Consumers, Routes, Services, RbacRoleEndpoints, RbacRoles, Workspaces, names);
  }

  /** A non-empty list of steps: its first step, then the others. */
  lemma DeleteStepsFirst(w: World, ts: seq<Table>, names: seq<string>)
    requires ts != []
    ensures DeleteSteps(w, ts, names) == DeleteSteps(DeleteStep(w, ts[0], names), ts[1..], names)
  {
  }

  /** Seven delete steps, one after the other. */
  lemma {:induction false} DeleteStepsSeven(w: World, t1: Table, t2: Table, t3: Table, t4: Table, t5: Table,
                                            t6: Table, t7: Table, names: seq<string>)
    ensures DeleteSteps(w, [t1, t2, t3, t4, t5, t6, t7], names)
         == DeleteStep(DeleteStep(DeleteStep(DeleteStep(DeleteStep(DeleteStep(DeleteStep(
              w, t1, names), t2, names), t3, names), t4, names), t5, names), t6, names), t7, names)
  {
    var w1 := DeleteStep(w, t1, names);
    var w2 := DeleteStep(w1, t2, names);
    var w3 := DeleteStep(w2, t3, names);
    DeleteStepsFirst(w, [t1, t2, t3, t4, t5, t6, t7], names);
    assert [t1, t2, t3, t4, t5, t6, t7][1..] == [t2, t3, t4, t5, t6, t7];
    DeleteStepsFirst(w1, [t2, t3, t4, t5, t6, t7], names);
    assert [t2, t3, t4, t5, t6, t7][1..] == [t3, t4, t5, t6, t7];
    DeleteStepsFirst(w2, [t3, t4, t5, t6, t7], names);
    assert [t3, t4, t5, t6, t7][1..] == [t4, t5, t6, t7];
    DeleteStepsFour(w3, t4, t5, t6, t7, names);
  }

  /** Four delete steps, one after the other. */
  lemma {:induction false} DeleteStepsFour(w: World, t1: Table, t2: Table, t3: Table, t4: Table, names: seq<string>)
    ensures DeleteSteps(w, [t1, t2, t3, t4], names)
         == DeleteStep(DeleteStep(DeleteStep(DeleteStep(w, t1, names), t2, names), t3, names), t4, names)
  {
    var w1 := DeleteStep(w, t1, names);
    var w2 := DeleteStep(w1, t2, names);
    var w3 := DeleteStep(w2, t3, names);
    DeleteStepsFirst(w, [t1, t2, t3, t4], names);
    assert [t1, t2, t3, t4][1..] == [t2, t3, t4];
    DeleteStepsFirst(w1, [t2, t3, t4], names);
    assert [t2, t3, t4][1..] == [t3, t4];
    DeleteStepsFirst(w2, [t3, t4], names);
    assert [t3, t4][1..] == [t4];
    DeleteStepsFirst(w3, [t4], names);
  }
}
