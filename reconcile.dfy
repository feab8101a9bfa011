/** The reconciliation logic of the importer, as pure functions over table
    snapshots: which stored rows belong to the configured workspaces, which
    entities the configuration asks for, which of those are missing, and the
    rows that create them. */
module Reconcile {
  import opened Strings
  import opened Store

  // ---------------------------------------------------------------------------
  // Configuration

  /** `dict.get`-style lookup of one configuration key with a fallback. */
  function SetParam(key: string, default: string, data: map<string, string>): (v: string)
    ensures key in data ==> v == data[key]
    ensures key !in data ==> v == default
  {
    if key in data then data[key] else default
  }

  /** The column values every created service shares. */
  datatype SvcDefaults = SvcDefaults(
    protocol: string, host: string, port: string, path: string, retries: string,
    connectTimeout: string, writeTimeout: string, readTimeout: string)

  /** The service defaults, each read from its `service_*` key when present. */
  function GetSvcDefaults(data: map<string, string>): (d: SvcDefaults)
    ensures "service_protocol" in data ==> d.protocol == data["service_protocol"]
    ensures "service_host" in data ==> d.host == data["service_host"]
    ensures "service_port" in data ==> d.port == data["service_port"]
    ensures "service_path" in data ==> d.path == data["service_path"]
    ensures "service_retries" in data ==> d.retries == data["service_retries"]
    ensures "service_connect_timeout" in data ==> d.connectTimeout == data["service_connect_timeout"]
    ensures "service_write_timeout" in data ==> d.writeTimeout == data["service_write_timeout"]
    ensures "service_read_timeout" in data ==> d.readTimeout == data["service_read_timeout"]
    ensures "service_protocol" !in data ==> d.protocol == "http"
    ensures "service_host" !in data ==> d.host == "httpbin.org"
    ensures "service_port" !in data ==> d.port == "80"
    ensures "service_path" !in data ==> d.path == "/"
    ensures "service_retries" !in data ==> d.retries == "5"
    ensures "service_connect_timeout" !in data ==> d.connectTimeout == "60000"
    ensures "service_write_timeout" !in data ==> d.writeTimeout == "60000"
    ensures "service_read_timeout" !in data ==> d.readTimeout == "60000"
  {
    SvcDefaults(
      SetParam("service_protocol", "http", data),
      SetParam("service_host", "httpbin.org", data),
      SetParam("service_port", "80", data),
      SetParam("service_path", "/", data),
      SetParam("service_retries", "5", data),
      SetParam("service_connect_timeout", "60000", data),
      SetParam("service_write_timeout", "60000", data),
      SetParam("service_read_timeout", "60000", data))
  }

  /** With no `service_*` keys at all, the documented defaults apply. */
  lemma SvcDefaultsFallback(data: map<string, string>)
    requires forall key :: key in data ==> !StartsWith(key, "service_")
    ensures GetSvcDefaults(data) == SvcDefaults("http", "httpbin.org", "80", "/", "5", "60000", "60000", "60000")
  {
    assert !StartsWith("service_protocol", "service_") ==> "service_protocol" !in data;
    assert !StartsWith("service_host", "service_") ==> "service_host" !in data;
    assert !StartsWith("service_port", "service_") ==> "service_port" !in data;
    assert !StartsWith("service_path", "service_") ==> "service_path" !in data;
    assert !StartsWith("service_retries", "service_") ==> "service_retries" !in data;
    assert !StartsWith("service_connect_timeout", "service_") ==> "service_connect_timeout" !in data;
    assert !StartsWith("service_write_timeout", "service_") ==> "service_write_timeout" !in data;
    assert !StartsWith("service_read_timeout", "service_") ==> "service_read_timeout" !in data;
  }

  /** Every service default is usable inside a comma-joined row: none holds a
      comma (the service row is not rewritten, so `^`, `%` and `CONFIG` may occur). */
  ghost predicate DefaultsClean(d: SvcDefaults)
  {
    ',' !in d.protocol && ',' !in d.host && ',' !in d.port && ',' !in d.path && ',' !in d.retries
    && ',' !in d.connectTimeout && ',' !in d.writeTimeout && ',' !in d.readTimeout
  }

  lemma FallbackDefaultsClean()
    ensures DefaultsClean(SvcDefaults("http", "httpbin.org", "80", "/", "5", "60000", "60000", "60000"))
  {
  }

  /** What the create and delete passes read from the configuration. */
  datatype Plan = Plan(
    requiredNames: seq<string>,
    services: nat, routes: nat, consumers: nat,
    plugins: seq<string>,
    configs: map<string, string>,
    defaults: SvcDefaults)

  // ---------------------------------------------------------------------------
  // Names

  /** `"{}-{}-{}".format(base, kind, i)`: the name of the `i`-th child of a kind. */
  function DerivedName(base: string, kind: string, i: nat): string
  {
    base + "-" + kind + "-" + NatToString(i)
  }

  /** Names of one kind under one base differ exactly when their ordinals do. */
  lemma DerivedNameInjective(base: string, kind: string, i: nat, j: nat)
    ensures DerivedName(base, kind, i) == DerivedName(base, kind, j) <==> i == j
  {
    if DerivedName(base, kind, i) == DerivedName(base, kind, j) {
      var n := |base + "-" + kind + "-"|;
      assert DerivedName(base, kind, i)[n..] == NatToString(i);
      assert DerivedName(base, kind, j)[n..] == NatToString(j);
      NatToStringInjective(i, j);
    }
  }

  lemma DerivedNameExample()
    ensures DerivedName("perf", "workspace", 3) == "perf-workspace-3"
    ensures DerivedName(DerivedName("perf", "workspace", 3), "svc", 12) == "perf-workspace-3-svc-12"
  {
    assert NatToString(3) == "3";
    assert NatToString(12) == NatToString(1) + [Digit(2)];
  }

  /** A derived name built from clean parts is clean. */
  lemma DerivedNameClean(base: string, kind: string, i: nat)
    requires Clean(base) && Clean(kind)
    ensures Clean(DerivedName(base, kind, i))
  {
    NatToStringClean(i);
    CleanConcat(base, '-', kind);
    CleanConcat(base + "-" + kind, '-', NatToString(i));
    assert base + "-" + kind + "-" + NatToString(i) == (base + ['-'] + kind) + ['-'] + NatToString(i);
  }

  /** Derived names are key parts, and plain ones, when their base and kind are. */
  lemma DerivedNameParts(base: string, kind: string, i: nat)
    ensures KeyPart(base) && KeyPart(kind) ==> KeyPart(DerivedName(base, kind, i))
    ensures PlainPart(base) && PlainPart(kind) ==> PlainPart(DerivedName(base, kind, i))
  {
    NatToStringClean(i);
    CleanNoSeparator(NatToString(i));
  }

  // ---------------------------------------------------------------------------
  // Composite keys

  /** `"{}^{}".format(a, b)`. */
  function Key2(a: string, b: string): string
  {
    Join([a, b], '^')
  }

  /** `"{}^{}^{}".format(a, b, c)`. */
  function Key3(a: string, b: string, c: string): string
  {
    Join([a, b, c], '^')
  }

  /** A key built from parts free of `^` splits back into those parts. */
  lemma Key2Split(a: string, b: string)
    requires '^' !in a && '^' !in b
    ensures Split(Key2(a, b), '^') == [a, b]
  {
    SplitJoin([a, b], '^');
  }

  lemma Key3Split(a: string, b: string, c: string)
    requires '^' !in a && '^' !in b && '^' !in c
    ensures Split(Key3(a, b, c), '^') == [a, b, c]
  {
    SplitJoin([a, b, c], '^');
  }

  /** Whatever the parts hold, a key has at least as many pieces as parts. */
  lemma Key2Parts(a: string, b: string)
    ensures 2 <= |Split(Key2(a, b), '^')|
  {
    SplitJoinLength([a, b], '^');
  }

  lemma Key3Parts(a: string, b: string, c: string)
    ensures 3 <= |Split(Key3(a, b, c), '^')|
  {
    SplitJoinLength([a, b, c], '^');
  }

  // ---------------------------------------------------------------------------
  // Scoping: the rows that belong to the configured workspaces

  /** The rows whose column `col` holds one of `vals`, in table order:
      `{k: v for k, v in table.items() if v[col] in vals}`. */
  function Select(rows: seq<Row>, col: nat, vals: seq<string>): (out: seq<Row>)
    ensures |out| <= |rows|
    ensures forall x :: x in out <==> x in rows && At(x, col) in vals
    decreases |rows|
  {
    if rows == [] then []
    else (if At(rows[0], col) in vals then [rows[0]] else []) + Select(rows[1..], col, vals)
  }

  lemma {:induction false} SelectConcat(a: seq<Row>, b: seq<Row>, col: nat, vals: seq<string>)
    ensures Select(a + b, col, vals) == Select(a, col, vals) + Select(b, col, vals)
    decreases |a|
  {
    if a == [] {
      assert a + b == b;
    } else {
      assert (a + b)[0] == a[0];
      assert (a + b)[1..] == a[1..] + b;
      SelectConcat(a[1..], b, col, vals);
    }
  }

  lemma {:induction false} SelectEvery(rows: seq<Row>, col: nat, vals: seq<string>)
    requires forall i :: 0 <= i < |rows| ==> At(rows[i], col) in vals
    ensures Select(rows, col, vals) == rows
    decreases |rows|
  {
    if rows != [] {
      SelectEvery(rows[1..], col, vals);
    }
  }

  /** The stored workspaces whose name is configured. */
  function ActiveWorkspaces(db: Snapshot, names: seq<string>): (out: seq<Row>)
    ensures forall x :: x in out <==> x in Rows(db, Workspaces) && At(x, WsName) in names
  {
    Select(Rows(db, Workspaces), WsName, names)
  }

  function ActiveWorkspaceIds(db: Snapshot, names: seq<string>): seq<string>
  {
    Column(ActiveWorkspaces(db, names), WsId)
  }

  function ActiveWorkspaceNames(db: Snapshot, names: seq<string>): seq<string>
  {
    Column(ActiveWorkspaces(db, names), WsName)
  }

  /** The column of table `t` that places a row in a workspace: the name for
      workspaces and role endpoints, the workspace id elsewhere. */
  function ScopeColumn(t: Table): nat
  {
    match t
    case Workspaces => WsName
    case RbacRoles => RoleWsId
    case RbacRoleEndpoints => EndpointWorkspace
    case Services => SvcWsId
    case Routes => RouteWsId
    case Consumers => ConsumerWsId
    case Plugins => PluginWsId
  }

  /** The values of the scope column that make a row active: the configured
      names for workspaces, the active workspace names for role endpoints and the
      active workspace ids for everything else. */
  function Scope(db: Snapshot, t: Table, names: seq<string>): seq<string>
  {
    match t
    case Workspaces => names
    case RbacRoleEndpoints => ActiveWorkspaceNames(db, names)
    case _ => ActiveWorkspaceIds(db, names)
  }

  /** The rows of `t` that belong to a configured workspace: the `get_active_*`
      readers. */
  function Active(db: Snapshot, t: Table, names: seq<string>): (out: seq<Row>)
    ensures forall x :: x in out <==> x in Rows(db, t) && At(x, ScopeColumn(t)) in Scope(db, t, names)
  {
    Select(Rows(db, t), ScopeColumn(t), Scope(db, t, names))
  }

  /** The ids a delete pass removes from `t`: the first column of its active rows
      (`role_id` for role endpoints, `id` elsewhere). */
  function ActiveIds(db: Snapshot, t: Table, names: seq<string>): seq<string>
  {
    Column(Active(db, t, names), 0)
  }

  /** `workspaces_to_delete`: the ids of the stored workspaces whose name appears
      among the wanted `[id, name]` pairs. */
  function WorkspacesToDelete(current: seq<Row>, desired: seq<Row>): seq<string>
  {
    Column(Select(current, WsName, Column(desired, 1)), WsId)
  }

  /** Over the workspace table and the configured pairs, it names the ids
      the delete pass removes. */
  lemma WorkspacesToDeleteIsActive(db: Snapshot, desired: seq<Row>)
    ensures WorkspacesToDelete(Rows(db, Workspaces), desired) == ActiveIds(db, Workspaces, Column(desired, 1))
  {
  }

  // ---------------------------------------------------------------------------
  // Composites of the stored rows, compared against the wanted ones

  /** `<name>^<ws_id>` of every service in `rows`. */
  function ServiceKeys(rows: seq<Row>): (keys: seq<string>)
    ensures |keys| == |rows|
    ensures forall i :: 0 <= i < |rows| ==> keys[i] == Key2(At(rows[i], SvcName), At(rows[i], SvcWsId))
  {
    seq(|rows|, i requires 0 <= i < |rows| => Key2(At(rows[i], SvcName), At(rows[i], SvcWsId)))
  }

  /** `<username>^<ws_id>` of every consumer in `rows`. */
  function ConsumerKeys(rows: seq<Row>): (keys: seq<string>)
    ensures |keys| == |rows|
    ensures forall i :: 0 <= i < |rows| ==> keys[i] == Key2(At(rows[i], ConsumerUsername), At(rows[i], ConsumerWsId))
  {
    seq(|rows|, i requires 0 <= i < |rows| => Key2(At(rows[i], ConsumerUsername), At(rows[i], ConsumerWsId)))
  }

  /** `<name>^<service_id>^<ws_id>` of every route in `rows`. */
  function RouteKeys(rows: seq<Row>): (keys: seq<string>)
    ensures |keys| == |rows|
    ensures forall i :: 0 <= i < |rows| ==>
      keys[i] == Key3(At(rows[i], RouteName), At(rows[i], RouteServiceId), At(rows[i], RouteWsId))
  {
    seq(|rows|, i requires 0 <= i < |rows| =>
      Key3(At(rows[i], RouteName), At(rows[i], RouteServiceId), At(rows[i], RouteWsId)))
  }

  /** `<name>^<service_id>^<ws_id>` of every plugin in `rows`. */
  function PluginKeys(rows: seq<Row>): (keys: seq<string>)
    ensures |keys| == |rows|
    ensures forall i :: 0 <= i < |rows| ==>
      keys[i] == Key3(At(rows[i], PluginName), At(rows[i], PluginServiceId), At(rows[i], PluginWsId))
  {
    seq(|rows|, i requires 0 <= i < |rows| =>
      Key3(At(rows[i], PluginName), At(rows[i], PluginServiceId), At(rows[i], PluginWsId)))
  }

  /** `[v for v in required if v not in current]`, in the order of `required`. */
  function Missing(required: seq<string>, current: seq<string>): (out: seq<string>)
    ensures |out| <= |required|
    ensures forall x :: x in out <==> x in required && x !in current
    ensures current == [] ==> out == required
    decreases |required|
  {
    if required == [] then []
    else (if required[0] in current then [] else [required[0]]) + Missing(required[1..], current)
  }

  /** The filter works piece by piece: what is missing from `a + b` is what is
      missing from `a` followed by what is missing from `b`. */
  lemma {:induction false} MissingConcat(a: seq<string>, b: seq<string>, current: seq<string>)
    ensures Missing(a + b, current) == Missing(a, current) + Missing(b, current)
    decreases |a|
  {
    if a == [] {
      assert a + b == b;
    } else {
      assert (a + b)[0] == a[0];
      assert (a + b)[1..] == a[1..] + b;
      MissingConcat(a[1..], b, current);
    }
  }

  /** Scanning one more wanted composite that is present adds nothing missing. */
  lemma MissingTakeFound(required: seq<string>, i: nat, current: seq<string>)
    requires i < |required| && required[i] in current
    ensures Missing(required[..i + 1], current) == Missing(required[..i], current)
  {
    TakeSnoc(required, i);
    MissingConcat(required[..i], [required[i]], current);
    assert Missing(required[..i], current) + [] == Missing(required[..i], current);
  }

  /** Scanning one more wanted composite that is absent appends it to the missing ones. */
  lemma MissingTakeAbsent(required: seq<string>, i: nat, current: seq<string>)
    requires i < |required| && required[i] !in current
    ensures Missing(required[..i + 1], current) == Missing(required[..i], current) + [required[i]]
  {
    TakeSnoc(required, i);
    MissingConcat(required[..i], [required[i]], current);
  }

  /** Nothing is missing once everything required is present. */
  lemma MissingNone(required: seq<string>, current: seq<string>)
    requires forall x :: x in required ==> x in current
    ensures Missing(required, current) == []
  {
  }

  /** `list(set(desired) - set(current))`: the unordered difference. */
  function DiffLists(current: seq<string>, desired: seq<string>): (d: set<string>)
    ensures forall x :: x in d <==> x in desired && x !in current
  {
    (set x | x in desired) - (set x | x in current)
  }

  /** The unordered difference holds the same names as the ordered one. */
  lemma DiffListsIsMissing(current: seq<string>, desired: seq<string>)
    ensures DiffLists(current, desired) == set x | x in Missing(desired, current)
  {
  }

  // ---------------------------------------------------------------------------
  // The entities the configuration asks for

  /** Concatenation of blocks, each appended after the ones before it. */
  function Flatten(blocks: seq<seq<string>>): (out: seq<string>)
    ensures forall x :: x in out <==> exists j :: 0 <= j < |blocks| && x in blocks[j]
    decreases |blocks|
  {
    if blocks == [] then []
    else
      var init := blocks[..|blocks| - 1];
      assert forall j :: 0 <= j < |init| ==> init[j] == blocks[j];
      Flatten(init) + blocks[|blocks| - 1]
  }

  lemma {:induction false} FlattenLength(blocks: seq<seq<string>>, n: nat)
    requires forall j :: 0 <= j < |blocks| ==> |blocks[j]| == n
    ensures |Flatten(blocks)| == |blocks| * n
    decreases |blocks|
  {
    if blocks != [] {
      FlattenLength(blocks[..|blocks| - 1], n);
      assert |blocks| * n == (|blocks| - 1) * n + n;
    }
  }

  lemma FlattenSnoc(blocks: seq<seq<string>>, b: seq<string>)
    ensures Flatten(blocks + [b]) == Flatten(blocks) + b
  {
    assert (blocks + [b])[..|blocks|] == blocks;
  }

  /** `<ws_name>-svc-<i>^<ws_id>` for each of the `n` services of workspace `w`. */
  function ServiceBlock(w: Row, n: nat): (b: seq<string>)
    ensures |b| == n
    ensures forall i :: 0 <= i < n ==> b[i] == Key2(DerivedName(At(w, WsName), "svc", i), At(w, WsId))
  {
    seq(n, i requires 0 <= i < n => Key2(DerivedName(At(w, WsName), "svc", i), At(w, WsId)))
  }

  /** `<ws_name>-consumer-<i>^<ws_id>` for each of the `n` consumers of workspace `w`. */
  function ConsumerBlock(w: Row, n: nat): (b: seq<string>)
    ensures |b| == n
    ensures forall i :: 0 <= i < n ==> b[i] == Key2(DerivedName(At(w, WsName), "consumer", i), At(w, WsId))
  {
    seq(n, i requires 0 <= i < n => Key2(DerivedName(At(w, WsName), "consumer", i), At(w, WsId)))
  }

  /** `<svc_name>-route-<i>^<svc_id>^<ws_id>` for each of the `n` routes of service `s`. */
  function RouteBlock(s: Row, n: nat): (b: seq<string>)
    ensures |b| == n
    ensures forall i :: 0 <= i < n ==>
      b[i] == Key3(DerivedName(At(s, SvcName), "route", i), At(s, SvcId), At(s, SvcWsId))
  {
    seq(n, i requires 0 <= i < n => Key3(DerivedName(At(s, SvcName), "route", i), At(s, SvcId), At(s, SvcWsId)))
  }

  /** `<plugin>^<svc_id>^<ws_id>` for each configured plugin on service `s`. */
  function PluginBlock(s: Row, plugins: seq<string>): (b: seq<string>)
    ensures |b| == |plugins|
    ensures forall i :: 0 <= i < |plugins| ==> b[i] == Key3(plugins[i], At(s, SvcId), At(s, SvcWsId))
  {
    seq(|plugins|, i requires 0 <= i < |plugins| => Key3(plugins[i], At(s, SvcId), At(s, SvcWsId)))
  }

  function ServiceBlocks(ws: seq<Row>, n: nat): seq<seq<string>>
  {
    seq(|ws|, j requires 0 <= j < |ws| => ServiceBlock(ws[j], n))
  }

  function ConsumerBlocks(ws: seq<Row>, n: nat): seq<seq<string>>
  {
    seq(|ws|, j requires 0 <= j < |ws| => ConsumerBlock(ws[j], n))
  }

  function RouteBlocks(svcs: seq<Row>, n: nat): seq<seq<string>>
  {
    seq(|svcs|, j requires 0 <= j < |svcs| => RouteBlock(svcs[j], n))
  }

  function PluginBlocks(svcs: seq<Row>, plugins: seq<string>): seq<seq<string>>
  {
    seq(|svcs|, j requires 0 <= j < |svcs| => PluginBlock(svcs[j], plugins))
  }

  /** One more name of a block is the next derived name. */
  lemma ServiceBlockGrow(done: seq<string>, data: seq<string>, w: Row, n: nat, i: nat)
    requires i < n && data == done + ServiceBlock(w, n)[..i]
    ensures data + [Key2(DerivedName(At(w, WsName), "svc", i), At(w, WsId))] == done + ServiceBlock(w, n)[..i + 1]
  {
    TakeSnoc(ServiceBlock(w, n), i);
  }

  lemma ConsumerBlockGrow(done: seq<string>, data: seq<string>, w: Row, n: nat, i: nat)
    requires i < n && data == done + ConsumerBlock(w, n)[..i]
    ensures data + [Key2(DerivedName(At(w, WsName), "consumer", i), At(w, WsId))] == done + ConsumerBlock(w, n)[..i + 1]
  {
    TakeSnoc(ConsumerBlock(w, n), i);
  }

  lemma RouteBlockGrow(done: seq<string>, data: seq<string>, s: Row, n: nat, i: nat)
    requires i < n && data == done + RouteBlock(s, n)[..i]
    ensures data + [Key3(DerivedName(At(s, SvcName), "route", i), At(s, SvcId), At(s, SvcWsId))] == done + RouteBlock(s, n)[..i + 1]
  {
    TakeSnoc(RouteBlock(s, n), i);
  }

  lemma PluginBlockGrow(done: seq<string>, data: seq<string>, s: Row, plugins: seq<string>, i: nat)
    requires i < |plugins| && data == done + PluginBlock(s, plugins)[..i]
    ensures data + [Key3(plugins[i], At(s, SvcId), At(s, SvcWsId))] == done + PluginBlock(s, plugins)[..i + 1]
  {
    TakeSnoc(PluginBlock(s, plugins), i);
  }

  /** Once a row's whole block is appended, the names cover one more row. */
  lemma ServiceBlocksGrow(done: seq<string>, data: seq<string>, rows: seq<Row>, n: nat, j: nat)
    requires j < |rows| && done == Flatten(ServiceBlocks(rows[..j], n))
    requires data == done + ServiceBlock(rows[j], n)[..|ServiceBlock(rows[j], n)|]
    ensures data == Flatten(ServiceBlocks(rows[..j + 1], n))
  {
    assert ServiceBlocks(rows[..j + 1], n) == ServiceBlocks(rows[..j], n) + [ServiceBlock(rows[j], n)];
    FlattenSnoc(ServiceBlocks(rows[..j], n), ServiceBlock(rows[j], n));
  }

  lemma ConsumerBlocksGrow(done: seq<string>, data: seq<string>, rows: seq<Row>, n: nat, j: nat)
    requires j < |rows| && done == Flatten(ConsumerBlocks(rows[..j], n))
    requires data == done + ConsumerBlock(rows[j], n)[..|ConsumerBlock(rows[j], n)|]
    ensures data == Flatten(ConsumerBlocks(rows[..j + 1], n))
  {
    assert ConsumerBlocks(rows[..j + 1], n) == ConsumerBlocks(rows[..j], n) + [ConsumerBlock(rows[j], n)];
    FlattenSnoc(ConsumerBlocks(rows[..j], n), ConsumerBlock(rows[j], n));
  }

  lemma RouteBlocksGrow(done: seq<string>, data: seq<string>, rows: seq<Row>, n: nat, j: nat)
    requires j < |rows| && done == Flatten(RouteBlocks(rows[..j], n))
    requires data == done + RouteBlock(rows[j], n)[..|RouteBlock(rows[j], n)|]
    ensures data == Flatten(RouteBlocks(rows[..j + 1], n))
  {
    assert RouteBlocks(rows[..j + 1], n) == RouteBlocks(rows[..j], n) + [RouteBlock(rows[j], n)];
    FlattenSnoc(RouteBlocks(rows[..j], n), RouteBlock(rows[j], n));
  }

  lemma PluginBlocksGrow(done: seq<string>, data: seq<string>, rows: seq<Row>, plugins: seq<string>, j: nat)
    requires j < |rows| && done == Flatten(PluginBlocks(rows[..j], plugins))
    requires data == done + PluginBlock(rows[j], plugins)[..|PluginBlock(rows[j], plugins)|]
    ensures data == Flatten(PluginBlocks(rows[..j + 1], plugins))
  {
    assert PluginBlocks(rows[..j + 1], plugins) == PluginBlocks(rows[..j], plugins) + [PluginBlock(rows[j], plugins)];
    FlattenSnoc(PluginBlocks(rows[..j], plugins), PluginBlock(rows[j], plugins));
  }

  /** `get_requried_svc_names`: services of every active workspace, workspace by workspace. */
  function RequiredServiceNames(db: Snapshot, p: Plan): seq<string>
  {
    Flatten(ServiceBlocks(ActiveWorkspaces(db, p.requiredNames), p.services))
  }

  /** `get_requried_consumer_names`. */
  function RequiredConsumerNames(db: Snapshot, p: Plan): seq<string>
  {
    Flatten(ConsumerBlocks(ActiveWorkspaces(db, p.requiredNames), p.consumers))
  }

  /** `get_requried_route_names`: routes of every active service, service by service. */
  function RequiredRouteNames(db: Snapshot, p: Plan): seq<string>
  {
    Flatten(RouteBlocks(Active(db, Services, p.requiredNames), p.routes))
  }

  /** `get_requried_plugin_names`: every configured plugin on every active service. */
  function RequiredPluginNames(db: Snapshot, p: Plan): seq<string>
  {
    Flatten(PluginBlocks(Active(db, Services, p.requiredNames), p.plugins))
  }

  lemma ServiceCount(db: Snapshot, p: Plan)
    ensures |RequiredServiceNames(db, p)| == |ActiveWorkspaces(db, p.requiredNames)| * p.services
  {
    FlattenLength(ServiceBlocks(ActiveWorkspaces(db, p.requiredNames), p.services), p.services);
  }

  lemma ConsumerCount(db: Snapshot, p: Plan)
    ensures |RequiredConsumerNames(db, p)| == |ActiveWorkspaces(db, p.requiredNames)| * p.consumers
  {
    FlattenLength(ConsumerBlocks(ActiveWorkspaces(db, p.requiredNames), p.consumers), p.consumers);
  }

  lemma RouteCount(db: Snapshot, p: Plan)
    ensures |RequiredRouteNames(db, p)| == |Active(db, Services, p.requiredNames)| * p.routes
  {
    FlattenLength(RouteBlocks(Active(db, Services, p.requiredNames), p.routes), p.routes);
  }

  lemma PluginCount(db: Snapshot, p: Plan)
    ensures |RequiredPluginNames(db, p)| == |Active(db, Services, p.requiredNames)| * |p.plugins|
  {
    FlattenLength(PluginBlocks(Active(db, Services, p.requiredNames), p.plugins), |p.plugins|);
  }

  lemma ServiceNameFrom(ws: seq<Row>, n: nat, x: string)
    requires x in Flatten(ServiceBlocks(ws, n))
    ensures exists w, i :: w in ws && 0 <= i < n && x == Key2(DerivedName(At(w, WsName), "svc", i), At(w, WsId))
  {
    var blocks := ServiceBlocks(ws, n);
    var j :| 0 <= j < |blocks| && x in blocks[j];
    var b := ServiceBlock(ws[j], n);
    assert blocks[j] == b;
    var i :| 0 <= i < |b| && b[i] == x;
    assert ws[j] in ws;
  }

  lemma ServiceNameIn(ws: seq<Row>, n: nat, w: Row, i: nat)
    requires w in ws && i < n
    ensures Key2(DerivedName(At(w, WsName), "svc", i), At(w, WsId)) in Flatten(ServiceBlocks(ws, n))
  {
    var j :| 0 <= j < |ws| && ws[j] == w;
    var blocks := ServiceBlocks(ws, n);
    assert blocks[j][i] == Key2(DerivedName(At(w, WsName), "svc", i), At(w, WsId));
  }

  /** Exactly the names `<ws>-svc-<i>^<ws_id>` of an active workspace and an `i` below the count. */
  lemma RequiredServiceNamesAre(db: Snapshot, p: Plan, x: string)
    ensures x in RequiredServiceNames(db, p) <==>
      exists w, i :: w in ActiveWorkspaces(db, p.requiredNames) && 0 <= i < p.services &&
        x == Key2(DerivedName(At(w, WsName), "svc", i), At(w, WsId))
  {
    var ws := ActiveWorkspaces(db, p.requiredNames);
    if x in RequiredServiceNames(db, p) {
      ServiceNameFrom(ws, p.services, x);
    }
    if exists w, i :: w in ws && 0 <= i < p.services && x == Key2(DerivedName(At(w, WsName), "svc", i), At(w, WsId)) {
      var w, i :| w in ws && 0 <= i < p.services && x == Key2(DerivedName(At(w, WsName), "svc", i), At(w, WsId));
      ServiceNameIn(ws, p.services, w, i);
    }
  }

  lemma ConsumerNameFrom(ws: seq<Row>, n: nat, x: string)
    requires x in Flatten(ConsumerBlocks(ws, n))
    ensures exists w, i :: w in ws && 0 <= i < n && x == Key2(DerivedName(At(w, WsName), "consumer", i), At(w, WsId))
  {
    var blocks := ConsumerBlocks(ws, n);
    var j :| 0 <= j < |blocks| && x in blocks[j];
    var b := ConsumerBlock(ws[j], n);
    assert blocks[j] == b;
    var i :| 0 <= i < |b| && b[i] == x;
    assert ws[j] in ws;
  }

  lemma ConsumerNameIn(ws: seq<Row>, n: nat, w: Row, i: nat)
    requires w in ws && i < n
    ensures Key2(DerivedName(At(w, WsName), "consumer", i), At(w, WsId)) in Flatten(ConsumerBlocks(ws, n))
  {
    var j :| 0 <= j < |ws| && ws[j] == w;
    var blocks := ConsumerBlocks(ws, n);
    assert blocks[j][i] == Key2(DerivedName(At(w, WsName), "consumer", i), At(w, WsId));
  }

  /** Exactly the names `<ws>-consumer-<i>^<ws_id>`. */
  lemma RequiredConsumerNamesAre(db: Snapshot, p: Plan, x: string)
    ensures x in RequiredConsumerNames(db, p) <==>
      exists w, i :: w in ActiveWorkspaces(db, p.requiredNames) && 0 <= i < p.consumers &&
        x == Key2(DerivedName(At(w, WsName), "consumer", i), At(w, WsId))
  {
    var ws := ActiveWorkspaces(db, p.requiredNames);
    if x in RequiredConsumerNames(db, p) {
      ConsumerNameFrom(ws, p.consumers, x);
    }
    if exists w, i :: w in ws && 0 <= i < p.consumers && x == Key2(DerivedName(At(w, WsName), "consumer", i), At(w, WsId)) {
      var w, i :| w in ws && 0 <= i < p.consumers && x == Key2(DerivedName(At(w, WsName), "consumer", i), At(w, WsId));
      ConsumerNameIn(ws, p.consumers, w, i);
    }
  }

  lemma RouteNameFrom(svcs: seq<Row>, n: nat, x: string)
    requires x in Flatten(RouteBlocks(svcs, n))
    ensures exists s, i :: s in svcs && 0 <= i < n && x == Key3(DerivedName(At(s, SvcName), "route", i), At(s, SvcId), At(s, SvcWsId))
  {
    var blocks := RouteBlocks(svcs, n);
    var j :| 0 <= j < |blocks| && x in blocks[j];
    var b := RouteBlock(svcs[j], n);
    assert blocks[j] == b;
    var i :| 0 <= i < |b| && b[i] == x;
    assert svcs[j] in svcs;
  }

  lemma RouteNameIn(svcs: seq<Row>, n: nat, s: Row, i: nat)
    requires s in svcs && i < n
    ensures Key3(DerivedName(At(s, SvcName), "route", i), At(s, SvcId), At(s, SvcWsId)) in Flatten(RouteBlocks(svcs, n))
  {
    var j :| 0 <= j < |svcs| && svcs[j] == s;
    var blocks := RouteBlocks(svcs, n);
    assert blocks[j][i] == Key3(DerivedName(At(s, SvcName), "route", i), At(s, SvcId), At(s, SvcWsId));
  }

  /** Exactly the names `<svc>-route-<i>^<svc_id>^<ws_id>` of an active service. */
  lemma RequiredRouteNamesAre(db: Snapshot, p: Plan, x: string)
    ensures x in RequiredRouteNames(db, p) <==>
      exists s, i :: s in Active(db, Services, p.requiredNames) && 0 <= i < p.routes &&
        x == Key3(DerivedName(At(s, SvcName), "route", i), At(s, SvcId), At(s, SvcWsId))
  {
    var svcs := Active(db, Services, p.requiredNames);
    if x in RequiredRouteNames(db, p) {
      RouteNameFrom(svcs, p.routes, x);
    }
    if exists s, i :: s in svcs && 0 <= i < p.routes && x == Key3(DerivedName(At(s, SvcName), "route", i), At(s, SvcId), At(s, SvcWsId)) {
      var s, i :| s in svcs && 0 <= i < p.routes && x == Key3(DerivedName(At(s, SvcName), "route", i), At(s, SvcId), At(s, SvcWsId));
      RouteNameIn(svcs, p.routes, s, i);
    }
  }

  lemma PluginNameFrom(svcs: seq<Row>, plugins: seq<string>, x: string)
    requires x in Flatten(PluginBlocks(svcs, plugins))
    ensures exists s, i :: s in svcs && 0 <= i < |plugins| && x == Key3(plugins[i], At(s, SvcId), At(s, SvcWsId))
  {
    var blocks := PluginBlocks(svcs, plugins);
    var j :| 0 <= j < |blocks| && x in blocks[j];
    var b := PluginBlock(svcs[j], plugins);
    assert blocks[j] == b;
    var i :| 0 <= i < |b| && b[i] == x;
    assert svcs[j] in svcs;
  }

  lemma PluginNameIn(svcs: seq<Row>, plugins: seq<string>, s: Row, i: nat)
    requires s in svcs && i < |plugins|
    ensures Key3(plugins[i], At(s, SvcId), At(s, SvcWsId)) in Flatten(PluginBlocks(svcs, plugins))
  {
    var j :| 0 <= j < |svcs| && svcs[j] == s;
    var blocks := PluginBlocks(svcs, plugins);
    assert blocks[j][i] == Key3(plugins[i], At(s, SvcId), At(s, SvcWsId));
  }

  /** Exactly the names `<plugin>^<svc_id>^<ws_id>` of a configured plugin and an active service. */
  lemma RequiredPluginNamesAre(db: Snapshot, p: Plan, x: string)
    ensures x in RequiredPluginNames(db, p) <==>
      exists s, i :: s in Active(db, Services, p.requiredNames) && 0 <= i < |p.plugins| &&
        x == Key3(p.plugins[i], At(s, SvcId), At(s, SvcWsId))
  {
    var svcs := Active(db, Services, p.requiredNames);
    if x in RequiredPluginNames(db, p) {
      PluginNameFrom(svcs, p.plugins, x);
    }
    if exists s, i :: s in svcs && 0 <= i < |p.plugins| && x == Key3(p.plugins[i], At(s, SvcId), At(s, SvcWsId)) {
      var s, i :| s in svcs && 0 <= i < |p.plugins| && x == Key3(p.plugins[i], At(s, SvcId), At(s, SvcWsId));
      PluginNameIn(svcs, p.plugins, s, i);
    }
  }

  /** Every wanted composite has the pieces its hydrator reads. */
  lemma RequiredNamesSplit(db: Snapshot, p: Plan)
    ensures forall x :: x in RequiredServiceNames(db, p) ==> 2 <= |Split(x, '^')|
    ensures forall x :: x in RequiredConsumerNames(db, p) ==> 2 <= |Split(x, '^')|
    ensures forall x :: x in RequiredRouteNames(db, p) ==> 3 <= |Split(x, '^')|
    ensures forall x :: x in RequiredPluginNames(db, p) ==> 3 <= |Split(x, '^')|
  {
    forall x | x in RequiredServiceNames(db, p) ensures 2 <= |Split(x, '^')| {
      RequiredServiceNamesAre(db, p, x);
      var w, i :| w in ActiveWorkspaces(db, p.requiredNames) && 0 <= i < p.services &&
        x == Key2(DerivedName(At(w, WsName), "svc", i), At(w, WsId));
      Key2Parts(DerivedName(At(w, WsName), "svc", i), At(w, WsId));
    }
    forall x | x in RequiredConsumerNames(db, p) ensures 2 <= |Split(x, '^')| {
      RequiredConsumerNamesAre(db, p, x);
      var w, i :| w in ActiveWorkspaces(db, p.requiredNames) && 0 <= i < p.consumers &&
        x == Key2(DerivedName(At(w, WsName), "consumer", i), At(w, WsId));
      Key2Parts(DerivedName(At(w, WsName), "consumer", i), At(w, WsId));
    }
    forall x | x in RequiredRouteNames(db, p) ensures 3 <= |Split(x, '^')| {
      RequiredRouteNamesAre(db, p, x);
      var s, i :| s in Active(db, Services, p.requiredNames) && 0 <= i < p.routes &&
        x == Key3(DerivedName(At(s, SvcName), "route", i), At(s, SvcId), At(s, SvcWsId));
      Key3Parts(DerivedName(At(s, SvcName), "route", i), At(s, SvcId), At(s, SvcWsId));
    }
    forall x | x in RequiredPluginNames(db, p) ensures 3 <= |Split(x, '^')| {
      RequiredPluginNamesAre(db, p, x);
      var s, i :| s in Active(db, Services, p.requiredNames) && 0 <= i < |p.plugins| &&
        x == Key3(p.plugins[i], At(s, SvcId), At(s, SvcWsId));
      Key3Parts(p.plugins[i], At(s, SvcId), At(s, SvcWsId));
    }
  }
}
