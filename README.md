# Kong Postgres importer: the `Runner` reconciler

`runner.py` fills a Kong Enterprise Postgres database with benchmark
entities: workspaces, one super-admin RBAC role and endpoint per workspace,
services, routes, consumers and plugins. Every entity is named from a prefix
and an ordinal (`perf-workspace-3`, `perf-workspace-3-svc-12`, ...). The
runner is a reconciler. In create mode it reads what the tables hold for the
configured workspaces and inserts only what is missing, in dependency order.
In delete mode it removes, child tables first, every row that belongs to a
configured workspace.

This Dafny project models that class.

- **`Store` (store.dfy)** models the database as the runner sees it. The
  class `Store.Store` holds one table per entity kind, as the dictionary
  `get_entities` builds (keyed by the first projected column), plus a log of
  the bulk operations issued.
  - `Insert` models a COPY into a table. The only failure it models is a row
    of the wrong width, which leaves the table untouched. The other ways a real
    COPY fails are listed under "Left out".
  - `Delete` models the temp-table-and-`DELETE` idiom.
- **`Strings` (strings.dfy)** models the Python string operations the runner
  uses: `str(int)`, `str.join`, `str.split` and a literal `re.sub`.
  - `Split(Join(xs)) == xs` is proved for separator-free parts.
- **`Reconcile` (reconcile.dfy)** is the pure core over table snapshots:
  - the service defaults;
  - the names derived from prefix and ordinal;
  - the `^`-joined composite keys;
  - the scoping of each table to the configured workspaces;
  - the required-name lists;
  - the ordered "missing" filter and `diff_lists`.
- **`Hydrate` (hydrate.dfy)** models the four `*_data` hydrators. Each row
  they produce is proved to be exactly the row the COPY column list expects.
- **`Passes` (passes.dfy)** holds:
  - the rows each `*_to_create` returns, as functions;
  - a step per `create_*` / `delete_*`;
  - `create_entities` and `delete_entities` as whole passes over a `World`
    (tables, configured workspace rows, ids drawn, operation log).
- **`Runner` (runner.dfy)** is the class `Runner.Runner`. Its methods mirror
  the source's methods with the same loops. Each method is proved equal to
  the function of `Passes` or `Reconcile` that specifies it.
- **`Steps` and `Scans` (steps.dfy, scans.dfy)** hold the loop-step lemmas
  those methods use.
- **`Properties` (properties.dfy)** proves what the design promises:
  - a create pass is idempotent per kind;
  - every created row has a fresh id, lies in a configured workspace and
    fills exactly one missing name;
  - endpoints can always be attached after roles are created;
  - `delete_entities` removes every row whose id is the id of a row active at
    its start. In a table with distinct ids those are exactly the active
    rows, and the rows of other workspaces are spared.
- **`RoundTrip` (roundtrip.dfy)** follows a whole run from a "first run"
  state (`FirstRun`). That state has five conditions:
  - the store holds none of the configured workspaces, and no stored row
    refers to one;
  - the prefix holds no `,`, `^`, `%` or `CONFIG`;
  - no service default holds `,`;
  - every plugin name holds none of those either and has a configuration;
  - every id the run draws is clean, new and distinct.

  Outside these conditions the source can fail part-way. A `,` in the prefix
  gives service rows the wrong width, so their COPY fails. A plugin without
  a configuration raises `KeyError`. From a first-run state it proves two
  things:
  - the create pass goes through and gives each table exactly the designed
    number of new rows: `W` workspaces, roles and endpoints, `W*S` services,
    `W*S*R` routes, `W*C` consumers and `W*S*P` plugins;
  - a delete pass for the same configuration afterwards gives every table
    back the rows it had before.

`uuid.uuid4()` is the parameter `gen: nat -> string` together with a counter
of the ids drawn. Where a property needs fresh, distinct ids it says so in a
`requires` (`FreshIds`).

## Model

| member | source | states |
|---|---|---|
| `Store.Store.Insert` | runner.py:143-153 | one COPY per call, logged with its row count; when every row has the table's width each row replaces the stored row with its key or is appended, otherwise the table is left as it was; the store stays keyed without duplicates |
| `Store.Store.Delete` | runner.py:155-171 | one delete per call, logged with its id count; afterwards the table holds exactly the rows whose matched column is not one of the ids, other tables unchanged |
| `Store.Remove` | runner.py:165-170 | a row is kept iff it was present and its column is not among the ids; never longer than the input |
| `Store.PutAllKeys` | runner.py:139-140 | after a batch of dictionary assignments the keys are the old keys plus the batch's keys |
| `Store.PutAllFresh` | runner.py:139-140 | a batch whose keys are distinct and new is simply appended, in order |
| `Store.PutAllDistinct` | runner.py:139-140 | dictionary assignment keeps the keys of a table distinct |
| `Reconcile.SetParam` | runner.py:88-89 | the configured value when the key is present, the default otherwise |
| `Reconcile.GetSvcDefaults` | runner.py:76-86 | each of the eight service defaults is the configured `service_*` value when that key is present, and its own fallback (http, httpbin.org, 80, /, 5, 60000) when that key alone is absent |
| `Reconcile.SvcDefaultsFallback` | runner.py:76-86 | with no `service_*` key the defaults are http, httpbin.org, 80, /, 5 and 60000 for the three timeouts |
| `Reconcile.DerivedNameInjective` | runner.py:100-107 | two derived names of one kind under one base are equal iff their ordinals are, so generated names never collide |
| `Reconcile.DerivedNameExample` | runner.py:100-107 | `perf-workspace-3`, and the nested service name `perf-workspace-3-svc-12` |
| `Reconcile.Key2Split` | runner.py:582-585 | splitting a two-part composite on `^` gives back both parts when they hold no `^` |
| `Reconcile.Key3Split` | runner.py:618-622 | splitting a three-part composite on `^` gives back all three parts when they hold no `^` |
| `Reconcile.Select` | runner.py:515-528 | a row is selected iff it is stored and its column holds one of the wanted values |
| `Reconcile.SelectConcat` | runner.py:515-528 | selection distributes over concatenation, so the stored order and multiplicity are kept |
| `Reconcile.ActiveWorkspaces` | runner.py:515-528 | a workspace row is active iff it is stored and its name is a configured workspace name |
| `Reconcile.Active` | runner.py:369-528 | a row of any table is active iff it is stored and its workspace column (its workspace name for endpoints) lies in the active workspaces |
| `Reconcile.WorkspacesToDeleteIsActive` | runner.py:576-580 | `workspaces_to_delete` returns exactly the ids of the active workspaces |
| `Reconcile.Missing` | runner.py:647-654 | a name is missing iff it is required and not current; nothing current gives every required name |
| `Reconcile.MissingConcat` | runner.py:647-654 | the missing filter distributes over concatenation, so the order and multiplicity of the required list are kept |
| `Reconcile.DiffLists` | runner.py:573-574 | the set difference: desired and not current |
| `Reconcile.DiffListsIsMissing` | runner.py:573-574 | `diff_lists` is the unordered form of the ordered missing filter |
| `Reconcile.ServiceCount` | runner.py:246-254 | `S` required service names per active workspace |
| `Reconcile.ConsumerCount` | runner.py:256-264 | `C` required consumer names per active workspace |
| `Reconcile.RouteCount` | runner.py:266-278 | `R` required route names per active service |
| `Reconcile.PluginCount` | runner.py:280-292 | one required plugin name per configured plugin per active service |
| `Reconcile.RequiredServiceNamesAre` | runner.py:246-254 | a composite is required iff it is `<ws>-svc-<i>^<ws_id>` for an active workspace and `i < S` |
| `Reconcile.RequiredConsumerNamesAre` | runner.py:256-264 | a composite is required iff it is `<ws>-consumer-<i>^<ws_id>` for an active workspace and `i < C` |
| `Reconcile.RequiredRouteNamesAre` | runner.py:266-278 | a composite is required iff it is `<svc>-route-<i>^<svc_id>^<ws_id>` for an active service and `i < R` |
| `Reconcile.RequiredPluginNamesAre` | runner.py:280-292 | a composite is required iff it is `<plugin>^<svc_id>^<ws_id>` for an active service and a configured plugin |
| `Reconcile.RequiredNamesSplit` | runner.py:582-645 | every required composite splits into at least the parts its hydrator indexes |
| `Hydrate.ServiceRowShape` | runner.py:582-606 | a service row is id, name, the eight defaults, workspace id and `true`, in the COPY column order, twelve columns |
| `Hydrate.ConsumerRowShape` | runner.py:608-616 | a consumer row is id, username, workspace id, the username again as `username_lower`, and `0`, five columns |
| `Hydrate.RouteRowShape` | runner.py:618-631 | a route row has thirteen columns with protocols `{http, https}`, path `{/<name>}` and the service and workspace ids from the composite |
| `Hydrate.PluginRowShape` | runner.py:633-645 | a plugin row has eight columns: the plugin's config put in place of `CONFIG`, enabled, the cache key `plugins:<name>::<svc>:::<ws>` and protocols `{grpc,grpcs,http,https}` |
| `Hydrate.RouteProtocols` | runner.py:618-631 | the escaped `%` in the route protocols becomes `, ` once the fields are split |
| `Hydrate.PluginProtocols` | runner.py:633-645 | the escaped `%` in the plugin protocols becomes `,` once the fields are split |
| `Passes.NameRows` | runner.py:100-107 | `quantity` rows, the `e`-th being a fresh id and `<prefix>-<entity>-<e>` |
| `Passes.WorkspaceRows` | runner.py:692-712 | one row per configured workspace whose name is not stored, in configured order, with the fixed meta appended |
| `Passes.RoleFor` | runner.py:492-501 | no role iff no active role has that workspace id; otherwise the id of the last such role, as the later entry of the dictionary comprehension wins |
| `Passes.RolesToCreate` | runner.py:762-797 | one role per active workspace without a stored role |
| `Passes.EndpointsToCreate` | runner.py:714-760 | it fails (the source's `KeyError`) iff some active workspace lacking an endpoint has no active role; otherwise one endpoint per such workspace |
| `Passes.ServicesToCreate` | runner.py:647-654 | one service row per missing service composite |
| `Passes.ConsumersToCreate` | runner.py:683-690 | one consumer row per missing consumer composite |
| `Passes.RoutesToCreate` | runner.py:656-666 | one route row per missing route composite |
| `Passes.ConfigGap` | runner.py:668-681 | the position of the first missing plugin with no configuration, or the length when all are configured |
| `Passes.PluginsToCreate` | runner.py:668-681 | it fails (the source's `KeyError`) iff some missing plugin has no configuration; otherwise one row per missing plugin |
| `Passes.CreatePassInOrder` | runner.py:799-806 | `create_entities` runs the seven create steps in the order workspaces, roles, endpoints, services, routes, consumers, plugins, and stops at the first failure |
| `Passes.CreateOrderComplete` | runner.py:799-806 | each of the seven tables is created exactly once |
| `Passes.DeleteOrderReversed` | runner.py:808-815 | the delete order is the create order reversed |
| `Passes.DeletePassInOrder` | runner.py:808-815 | `delete_entities` runs the seven delete steps, plugins first and workspaces last |
| `Runner.Runner.constructor` | runner.py:27-65 | the configured workspace names are `<prefix>-workspace-<e>`, the plan carries the counts, plugins, configs and service defaults, and the store ends as the whole delete pass or create pass of the starting state |
| `Runner.Runner.Uuid` | runner.py:100-107 | draws the next id of the oracle |
| `Runner.Runner.NameGen` | runner.py:100-107 | draws `quantity` ids and returns the named rows `NameRows` specifies |
| `Runner.Runner.GenWorkspaces` | runner.py:109-112 | the named rows of entity `workspace` |
| `Runner.Runner.RequiredServiceNames` | runner.py:246-254 | the nested loop returns exactly the specified required service composites |
| `Runner.Runner.RequiredConsumerNames` | runner.py:256-264 | the nested loop returns exactly the specified required consumer composites |
| `Runner.Runner.RequiredRouteNames` | runner.py:266-278 | the nested loop returns exactly the specified required route composites |
| `Runner.Runner.RequiredPluginNames` | runner.py:280-292 | the nested loop returns exactly the specified required plugin composites |
| `Runner.Runner.WorkspacesToCreate` | runner.py:692-712 | returns the workspace rows to create and, as the source does, appends the meta to the runner's own configured rows |
| `Runner.Runner.RbacRolesToCreate` | runner.py:762-797 | the loop returns exactly the specified role rows, drawing one id per row |
| `Runner.Runner.ServicesToCreate` | runner.py:647-654 | the loop returns exactly the specified service rows, drawing one id per row |
| `Runner.Runner.ConsumersToCreate` | runner.py:683-690 | the loop returns exactly the specified consumer rows, drawing one id per row |
| `Runner.Runner.RoutesToCreate` | runner.py:656-666 | the loop returns exactly the specified route rows, drawing one id per row |
| `Runner.Runner.PluginsToCreate` | runner.py:668-681 | the loop returns the specified rows, or fails at the first plugin without configuration after drawing ids up to and including it |
| `Runner.Runner.CreateWorkspaces` | runner.py:530-537 | performs the workspace create step |
| `Runner.Runner.CreateRbacRoles` | runner.py:235-239 | performs the role create step |
| `Runner.Runner.CreateRbacRoleEndpoints` | runner.py:241-244 | performs the endpoint create step, failing as the step does |
| `Runner.Runner.CreateServices` | runner.py:217-233 | performs the service create step |
| `Runner.Runner.CreateRoutes` | runner.py:173-190 | performs the route create step |
| `Runner.Runner.CreateConsumers` | runner.py:192-201 | performs the consumer create step |
| `Runner.Runner.CreatePlugins` | runner.py:203-215 | performs the plugin create step, failing as the step does |
| `Runner.Runner.CreateEntities` | runner.py:799-806 | the store ends as the whole create pass of the state it started in |
| `Runner.Runner.DeletePlugins` | runner.py:539-542 | deletes the active plugins |
| `Runner.Runner.DeleteConsumers` | runner.py:544-547 | deletes the active consumers |
| `Runner.Runner.DeleteRoutes` | runner.py:549-552 | deletes the active routes |
| `Runner.Runner.DeleteServices` | runner.py:554-557 | deletes the active services |
| `Runner.Runner.DeleteRbacRoleEndpoints` | runner.py:559-562 | deletes the endpoints of the active workspaces, matched on `role_id` |
| `Runner.Runner.DeleteRbacRoles` | runner.py:564-567 | deletes the active roles |
| `Runner.Runner.DeleteWorkspaces` | runner.py:569-571 | deletes the active workspaces |
| `Runner.Runner.DeleteEntities` | runner.py:808-815 | the store ends as the whole delete pass of the state it started in |
| `Properties.InsertFresh` | runner.py:143-153 | inserting rows with fresh, distinct ids appends them to the table |
| `Properties.InsertedKeeps` | runner.py:130-141 | inserting into one table leaves the active workspaces, every table's scope and the active rows of the other tables unchanged |
| `Properties.InsertedActive` | runner.py:369-389 | after inserting rows of the configured workspaces, the active rows of that table are the old ones followed by the new |
| `Properties.WorkspacesIdempotent` | runner.py:692-712 | after the workspace rows are inserted, no configured workspace is left to create |
| `Properties.RolesIdempotent` | runner.py:762-797 | after the roles are inserted, no active workspace lacks a role |
| `Properties.RolesToCreateRow` | runner.py:762-797 | each new role belongs to an active workspace without a role, and is a fresh id, `workspace-super-admin`, the comment naming the workspace, `false` and the workspace id |
| `Properties.EndpointsAfterRoles` | runner.py:714-760 | once the roles are created, creating the endpoints cannot fail |
| `Properties.EndpointsToCreateRow` | runner.py:714-760 | each new endpoint belongs to an active workspace without one, carries the id of an active role of that workspace, the workspace name, `*`, `15` and `false` |
| `Properties.EndpointsIdempotent` | runner.py:714-760 | after the endpoints are inserted, no active workspace lacks one |
| `Properties.ServiceKeysOfNew` | runner.py:647-654 | the `i`-th new service has the `i`-th drawn id, lies in an active workspace and its composite is the `i`-th missing name |
| `Properties.ServicesIdempotent` | runner.py:647-654 | after the new services are inserted, no service is missing |
| `Properties.ConsumerKeysOfNew` | runner.py:683-690 | the `i`-th new consumer has the `i`-th drawn id, lies in an active workspace and its composite is the `i`-th missing name |
| `Properties.ConsumersIdempotent` | runner.py:683-690 | after the new consumers are inserted, no consumer is missing |
| `Properties.RouteKeysOfNew` | runner.py:656-666 | the `i`-th new route has the `i`-th drawn id, lies in an active workspace and its composite is the `i`-th missing name |
| `Properties.RoutesIdempotent` | runner.py:656-666 | after the new routes are inserted, no route is missing |
| `Properties.PluginKeysOfNew` | runner.py:668-681 | the new plugins' composites are exactly the missing names, in order, each with its drawn id and an active workspace |
| `Properties.PluginsIdempotent` | runner.py:668-681 | after the new plugins are inserted, no plugin is missing |
| `Properties.DeletePassTable` | runner.py:808-815 | after `delete_entities` each table holds exactly the rows whose id is not that of a row active at the start, because the workspaces go last |
| `Properties.DeletePassRows` | runner.py:539-571 | a row remains iff it was stored and its id is not that of an active row; in particular no active row remains |
| `Properties.DeletePassSparesForeign` | runner.py:349-367 | in a table with distinct ids, every row outside the configured workspaces survives the delete pass |
| `Properties.SoundIdsDistinct` | runner.py:130-141 | every table but the workspaces is keyed by the id column the deletes match on |
| `RoundTrip.RemoveAppended` | runner.py:155-171 | deleting by ids that every appended row holds and no earlier row holds gives back the earlier rows |
| `RoundTrip.WorkspacesStepAdds` | runner.py:692-712 | when no configured workspace is stored, the workspace step appends them all in configured order with the meta, draws no id, leaves the other tables alone, and the new rows are exactly the active workspaces |
| `RoundTrip.RolesStepAdds` | runner.py:762-797 | with no active role, the role step appends one role per active workspace, in order, on the next fresh ids |
| `RoundTrip.RoleForDistinct` | runner.py:492-501 | among the roles made one per workspace with distinct ids, the lookup for the `i`-th workspace finds the `i`-th role |
| `RoundTrip.EndpointsStepAdds` | runner.py:714-760 | with no active endpoint and the roles just created, the endpoint step cannot fail and appends one endpoint per active workspace, drawing no id |
| `RoundTrip.ServicesStepAdds` | runner.py:217-233 | with no active service, the service step appends `S` services per active workspace, drawing one fresh id each |
| `RoundTrip.RoutesStepAdds` | runner.py:173-190 | with no active route, the route step appends `R` routes per active service, drawing one fresh id each |
| `RoundTrip.ConsumersStepAdds` | runner.py:192-201 | with no active consumer, the consumer step appends `C` consumers per active workspace, drawing one fresh id each |
| `RoundTrip.PluginsStepAdds` | runner.py:203-215 | with no active plugin and every plugin configured, the plugin step cannot fail and appends every plugin on every active service, drawing one fresh id each |
| `RoundTrip.FirstInactive` | runner.py:442-470 | on a first run, once the configured workspaces are in, no stored row of another table is active |
| `RoundTrip.CreatePassFirst` | runner.py:799-806 | on a first run `create_entities` goes through, draws exactly the ids it needs, and every table grows by its new rows, which are then exactly its active rows and reuse no stored id |
| `RoundTrip.CreatePassCounts` | runner.py:799-806 | on a first run `create_entities` keeps every stored row in place and appends `W` workspaces, roles and endpoints, `W*S` services, `W*S*R` routes, `W*C` consumers and `W*S*P` plugins; exactly those rows are active afterwards |
| `RoundTrip.CreateThenDelete` | runner.py:808-815 | a first run of `create_entities` followed by `delete_entities` for the same prefix and count gives every table back its rows from before the create |
| `RoundTrip.GrownRemoved` | runner.py:539-571 | deleting the active rows of a table that grew only by active rows with new ids leaves the rows it had before |

## Left out

- Database connection and I/O: `db_connect`, psycopg and the COPY protocol are not modelled. A store is the table snapshots plus a log of the bulk operations; each COPY is atomic, which is how the transaction behaves.
- `parse_config` (YAML reading), the `__main__` argument parsing and every `print` are not modelled. The constructor takes the parsed configuration as parameters.
- `uuid.uuid4()` is an oracle `gen: nat -> string`. The ids it yields are not proved distinct; the properties that need fresh, distinct ids state it as a precondition.
- `json.dumps` of a plugin configuration is not modelled. Each plugin's serialised configuration is an opaque string in the map `configs`.
- `re.sub` is modelled as literal, left-to-right, non-overlapping replacement. The runner's patterns (`%` and `CONFIG`) hold no special character, so that is exact for the patterns; the replacement string is covered by the last line of this section.
- The counts `services`, `routes` and `consumers` are `nat`. A negative count, which `range()` treats as zero, is not representable.
- The rbac_role_endpoints table is held as the runner reads it: a dictionary keyed by `role_id`, one row per role. A real table with several endpoints for one role is not modelled.
- `get_active_service_id_ws_composite`, `get_active_service_names` and the thin `get_workspaces` / `get_rbac_roles` / `get_rbac_role_endpoints` readers are covered by `Reconcile.Active` and the store's rows. They have no member of their own.
- Timestamps, `created_at` columns and database defaults are not part of the rows.
- There is no whole-pass idempotence lemma for `create_entities`. Idempotence is proved one entity kind at a time (`Properties.*Idempotent`).
- The whole-run theorems (`RoundTrip.CreatePassFirst`, `RoundTrip.CreatePassCounts`, `RoundTrip.CreateThenDelete`) are proved only from a first-run state. In that state:
  - no configured workspace is stored and no stored row refers to one;
  - the prefix holds no `,`, `^`, `%` or `CONFIG`;
  - no service default holds `,`;
  - every plugin name is clean and configured;
  - every id drawn is clean, new and distinct.
- With a configured workspace already stored, the delete pass also removes the rows it had before, so the store does not come back.
- With a `,` in the prefix or a default, the service rows have the wrong width and the create pass stops at the services.
- With an unconfigured plugin, the create pass stops at the plugins.
- `%` and `CONFIG` are excluded from the prefix only so that the stored names can be read back as the composite keys. A route row still gets its thirteen columns with a `%` in the prefix.
- The username of a consumer is stored as generated. The code does not lower-case it, and neither does the model.
- A plugin with no configuration entry makes the code raise a `KeyError` (runner.py:678). The model follows the code: the plugin step fails after drawing ids up to that plugin. It does not skip the plugin.
- `Store.Store.Insert`: a real COPY also fails on a duplicate id or workspace name, on a value of the wrong type (a non-integer port, an id that is not a uuid) and on a foreign-key violation. The model does not know these failures: it fails only on a row of the wrong width, and a row whose key is already stored replaces the stored row.
- `Store.Store.Delete`: a real `DELETE` fails when another table still refers to a deleted row through a foreign key. The model always succeeds. The delete pass goes children first, so the configured workspaces' own references are gone by then, but a row outside them that refers to a deleted row would make the real `DELETE` fail.
- Row order: each table is a sequence in insertion order, and the active rows, the required-name lists and the order in which ids are drawn all follow it. A real `COPY (SELECT ...)` returns rows in no guaranteed order. The model proves its properties for this order only.
- `re.sub` with the `json.dumps` output as its replacement (runner.py:679) interprets backslash escapes in that replacement: `\\` becomes one backslash, `\n` becomes a newline, and a `\uXXXX` escape, which `json.dumps` emits for every non-ASCII character, raises `re.error`. The model puts the serialised configuration in verbatim and reports success, so it matches the code only for configurations whose serialisation holds no backslash.
- The configured plugins are a sequence of names, `Plan.plugins`, in the order of the configuration. The source reads them from a dictionary (runner.py:55-56), so its names are distinct. The model does not require distinct names. A configuration that repeats a plugin name cannot come from the source, and for one the model would require that plugin twice per service.
