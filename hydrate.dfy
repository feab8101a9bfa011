/** The hydrators: from a composite key and a fresh id to the comma-joined
    text of a new row, then to the row itself by splitting on `,` and undoing
    the `%` escape (and, for plugins, substituting the `CONFIG` placeholder). */
module Hydrate {
  import opened Strings
  import opened Store
  import opened Reconcile

  /** `service_data`: id, name, the eight defaults, workspace id and `true`.
      The name and workspace id are the first two pieces of the key; a key
      with fewer pieces makes the source fail with an index error. */
  function ServiceData(comp: string, id: string, d: SvcDefaults): string
    requires 2 <= |Split(comp, '^')|
  {
    var p := Split(comp, '^');
    Join([id, p[0], d.retries, d.protocol, d.host, d.port, d.path,
          d.connectTimeout, d.writeTimeout, d.readTimeout, p[1], "true"], ',')
  }

  /** `consumer_data`: id, username, workspace id, the username again, type `0`. */
  function ConsumerData(comp: string, id: string): string
    requires 2 <= |Split(comp, '^')|
  {
    var p := Split(comp, '^');
    Join([id, p[0], p[1], p[0], "0"], ',')
  }

  /** `route_data`: the protocol list carries an escaped comma, the path is the
      route name. */
  function RouteData(comp: string, id: string): string
    requires 3 <= |Split(comp, '^')|
  {
    var p := Split(comp, '^');
    Join([id, p[0], p[1], "{http% https}", "{/" + p[0] + "}", "0", "true", "false",
          "426", "v0", p[2], "true", "true"], ',')
  }

  /** `plugins:<name>::<service_id>:::<ws_id>`. */
  function CacheKey(name: string, svc: string, ws: string): string
  {
    "plugins:" + name + "::" + svc + ":::" + ws
  }

  /** `plugin_data`: the configuration is the `CONFIG` placeholder, the protocol
      list carries escaped commas. */
  function PluginData(comp: string, id: string): string
    requires 3 <= |Split(comp, '^')|
  {
    var p := Split(comp, '^');
    Join([id, p[0], p[1], "CONFIG", "true", CacheKey(p[0], p[1], p[2]),
          "{grpc%grpcs%http%https}", p[2]], ',')
  }

  /** `[re.sub(pat, rep, y) for y in xs]`. */
  function ReplaceEach(xs: seq<string>, pat: string, rep: string): (ys: seq<string>)
    requires 0 < |pat|
    ensures |ys| == |xs|
    ensures forall i :: 0 <= i < |xs| ==> ys[i] == Replace(xs[i], pat, rep)
  {
    seq(|xs|, i requires 0 <= i < |xs| => Replace(xs[i], pat, rep))
  }

  function ServiceRow(comp: string, id: string, d: SvcDefaults): Row
    requires 2 <= |Split(comp, '^')|
  {
    Split(ServiceData(comp, id, d), ',')
  }

  function ConsumerRow(comp: string, id: string): Row
    requires 2 <= |Split(comp, '^')|
  {
    Split(ConsumerData(comp, id), ',')
  }

  function RouteRow(comp: string, id: string): Row
    requires 3 <= |Split(comp, '^')|
  {
    ReplaceEach(Split(RouteData(comp, id), ','), "%", ",")
  }

  /** The plugin row before the configuration is substituted. */
  function PluginFields(comp: string, id: string): Row
    requires 3 <= |Split(comp, '^')|
  {
    ReplaceEach(Split(PluginData(comp, id), ','), "%", ",")
  }

  function PluginRow(comp: string, id: string, config: string): Row
    requires 3 <= |Split(comp, '^')|
  {
    ReplaceEach(PluginFields(comp, id), "CONFIG", config)
  }

  /** A clean string is left alone by both rewrites. */
  lemma CleanUnchanged(s: string, config: string)
    requires Clean(s)
    ensures Replace(s, "%", ",") == s
    ensures Replace(s, "CONFIG", config) == s
  {
    CleanNoSeparator(s);
    FreeByFirst(s, "%");
    ReplaceFree(s, "%", ",");
    ReplaceFree(s, "CONFIG", config);
  }

  lemma CacheKeyClean(name: string, svc: string, ws: string)
    requires Clean(name) && Clean(svc) && Clean(ws)
    ensures Clean(CacheKey(name, svc, ws))
  {
    CleanPlain("plugins");
    CleanPlain("");
    CleanConcat("plugins", ':', name);
    var a := "plugins" + [':'] + name;
    CleanConcat(a, ':', "");
    var b := a + [':'] + "";
    CleanConcat(b, ':', svc);
    var c := b + [':'] + svc;
    CleanConcat(c, ':', "");
    var e := c + [':'] + "";
    CleanConcat(e, ':', "");
    var f := e + [':'] + "";
    CleanConcat(f, ':', ws);
    assert CacheKey(name, svc, ws) == f + [':'] + ws;
  }

  /** The route protocol list with its escaped comma restored. */
  lemma RouteProtocols()
    ensures Replace("{http% https}", "%", ",") == "{http, https}"
  {
    ReplaceOnce("{http", '%', " https}", ",");
    assert "{http" + ['%'] + " https}" == "{http% https}";
    assert "{http" + "," + " https}" == "{http, https}";
  }

  /** Three one-character occurrences, each replaced in place. */
  lemma ReplaceThree(a: string, b: string, c: string, e: string, x: char, rep: string)
    requires x !in a && x !in b && x !in c && x !in e
    ensures Replace(a + [x] + (b + [x] + (c + [x] + e)), [x], rep) == a + rep + (b + rep + (c + rep + e))
  {
    ReplaceOnce(c, x, e, rep);
    ReplaceAtFirst(b, x, c + [x] + e, rep);
    ReplaceAtFirst(a, x, b + [x] + (c + [x] + e), rep);
  }

  /** The plugin protocol list with its three escaped commas restored. */
  lemma PluginProtocols()
    ensures Replace("{grpc%grpcs%http%https}", "%", ",") == "{grpc,grpcs,http,https}"
  {
    ReplaceThree("{grpc", "grpcs", "http", "https}", '%', ",");
    PluginProtocolsEscaped();
    PluginProtocolsPlain();
  }

  lemma PluginProtocolsEscaped()
    ensures "{grpc" + ['%'] + ("grpcs" + ['%'] + ("http" + ['%'] + "https}")) == "{grpc%grpcs%http%https}"
  {
  }

  lemma PluginProtocolsPlain()
    ensures "{grpc" + "," + ("grpcs" + "," + ("http" + "," + "https}")) == "{grpc,grpcs,http,https}"
  {
  }

  /** Neither the restored plugin protocol list nor `true` holds the placeholder. */
  lemma ConfigFreeLiterals(config: string)
    ensures Replace("{grpc,grpcs,http,https}", "CONFIG", config) == "{grpc,grpcs,http,https}"
    ensures Replace("true", "CONFIG", config) == "true"
  {
    FreeByFirst("{grpc,grpcs,http,https}", "CONFIG");
    ReplaceFree("{grpc,grpcs,http,https}", "CONFIG", config);
    FreeByFirst("true", "CONFIG");
    ReplaceFree("true", "CONFIG", config);
  }

  /** Text without `%` is left alone by the unescape. */
  lemma Kept(s: string)
    requires '%' !in s
    ensures Replace(s, "%", ",") == s
  {
    FreeByFirst(s, "%");
    ReplaceFree(s, "%", ",");
  }

  /** A service row has the twelve service columns: the fresh id, the name and
      workspace id taken from the key, the defaults, and `enabled = true`. */
  lemma ServiceRowShape(name: string, ws: string, id: string, d: SvcDefaults)
    requires KeyPart(name) && KeyPart(ws) && ',' !in id && DefaultsClean(d)
    ensures 2 <= |Split(Key2(name, ws), '^')|
    ensures ServiceRow(Key2(name, ws), id, d) ==
      [id, name, d.retries, d.protocol, d.host, d.port, d.path,
       d.connectTimeout, d.writeTimeout, d.readTimeout, ws, "true"]
    ensures |ServiceRow(Key2(name, ws), id, d)| == |Columns(Services)|
  {
    Key2Split(name, ws);
    SplitJoin([id, name, d.retries, d.protocol, d.host, d.port, d.path,
               d.connectTimeout, d.writeTimeout, d.readTimeout, ws, "true"], ',');
  }

  /** A consumer row has the five consumer columns, `username_lower` being the
      username as it is. */
  lemma ConsumerRowShape(name: string, ws: string, id: string)
    requires KeyPart(name) && KeyPart(ws) && ',' !in id
    ensures 2 <= |Split(Key2(name, ws), '^')|
    ensures ConsumerRow(Key2(name, ws), id) == [id, name, ws, name, "0"]
    ensures |ConsumerRow(Key2(name, ws), id)| == |Columns(Consumers)|
  {
    Key2Split(name, ws);
    SplitJoin([id, name, ws, name, "0"], ',');
  }

  /** Thirteen comma-free fields split back out of their comma-joined text. */
  lemma SplitThirteen(fields: seq<string>, a0: string, a1: string, a2: string, a3: string, a4: string,
                      a5: string, a6: string, a7: string, a8: string, a9: string, a10: string,
                      a11: string, a12: string)
    requires fields == [a0, a1, a2, a3, a4, a5, a6, a7, a8, a9, a10, a11, a12]
    requires ',' !in a0 && ',' !in a1 && ',' !in a2 && ',' !in a3 && ',' !in a4 && ',' !in a5 && ',' !in a6
    requires ',' !in a7 && ',' !in a8 && ',' !in a9 && ',' !in a10 && ',' !in a11 && ',' !in a12
    ensures Split(Join(fields, ','), ',') == fields
  {
    SplitJoin(fields, ',');
  }

  lemma RouteFields(name: string, svc: string, ws: string, id: string)
    requires KeyPart(name) && KeyPart(svc) && KeyPart(ws) && ',' !in id
    ensures 3 <= |Split(Key3(name, svc, ws), '^')|
    ensures Split(RouteData(Key3(name, svc, ws), id), ',') ==
      [id, name, svc, "{http% https}", "{/" + name + "}", "0", "true", "false", "426", "v0", ws, "true", "true"]
  {
    Key3Split(name, svc, ws);
    var fields := [id, name, svc, "{http% https}", "{/" + name + "}", "0", "true", "false", "426", "v0", ws, "true", "true"];
    assert RouteData(Key3(name, svc, ws), id) == Join(fields, ',');
    assert ',' !in "{/" + name + "}";
    SplitThirteen(fields, id, name, svc, "{http% https}", "{/" + name + "}", "0", "true", "false", "426", "v0",
                  ws, "true", "true");
  }

  /** Unescaping thirteen fields of which only the fourth holds a `%`. */
  lemma UnescapeFourth(a0: string, a1: string, a2: string, e: string, u: string, a4: string, a5: string,
                       a6: string, a7: string, a8: string, a9: string, a10: string, a11: string, a12: string)
    requires '%' !in a0 && '%' !in a1 && '%' !in a2 && '%' !in a4 && '%' !in a5 && '%' !in a6
    requires '%' !in a7 && '%' !in a8 && '%' !in a9 && '%' !in a10 && '%' !in a11 && '%' !in a12
    requires Replace(e, "%", ",") == u
    ensures ReplaceEach([a0, a1, a2, e, a4, a5, a6, a7, a8, a9, a10, a11, a12], "%", ",")
      == [a0, a1, a2, u, a4, a5, a6, a7, a8, a9, a10, a11, a12]
  {
    Kept(a0);
    Kept(a1);
    Kept(a2);
    Kept(a4);
    Kept(a5);
    Kept(a6);
    Kept(a7);
    Kept(a8);
    Kept(a9);
    Kept(a10);
    Kept(a11);
    Kept(a12);
  }

  /** Only the escaped protocol list changes when the route fields are unescaped. */
  lemma RouteUnescape(name: string, svc: string, ws: string, id: string)
    requires '%' !in name && '%' !in svc && '%' !in ws && '%' !in id
    ensures ReplaceEach([id, name, svc, "{http% https}", "{/" + name + "}", "0", "true", "false",
                         "426", "v0", ws, "true", "true"], "%", ",")
      == [id, name, svc, "{http, https}", "{/" + name + "}", "0", "true", "false",
          "426", "v0", ws, "true", "true"]
  {
    RouteProtocols();
    assert '%' !in "{/" + name + "}";
    UnescapeFourth(id, name, svc, "{http% https}", "{http, https}", "{/" + name + "}",
                   "0", "true", "false", "426", "v0", ws, "true", "true");
  }

  /** A route row has the thirteen route columns; the escaped protocol list
      becomes `{http, https}` and the path is `/` and the route name. */
  lemma RouteRowShape(name: string, svc: string, ws: string, id: string)
    requires PlainPart(name) && PlainPart(svc) && PlainPart(ws) && ',' !in id && '%' !in id
    ensures 3 <= |Split(Key3(name, svc, ws), '^')|
    ensures RouteRow(Key3(name, svc, ws), id) ==
      [id, name, svc, "{http, https}", "{/" + name + "}", "0", "true", "false",
       "426", "v0", ws, "true", "true"]
    ensures |RouteRow(Key3(name, svc, ws), id)| == |Columns(Routes)|
  {
    RouteFields(name, svc, ws, id);
    RouteUnescape(name, svc, ws, id);
  }

  lemma PluginFieldsAre(name: string, svc: string, ws: string, id: string)
    requires Clean(name) && Clean(svc) && Clean(ws) && Clean(id)
    ensures 3 <= |Split(Key3(name, svc, ws), '^')|
    ensures Split(PluginData(Key3(name, svc, ws), id), ',') ==
      [id, name, svc, "CONFIG", "true", CacheKey(name, svc, ws), "{grpc%grpcs%http%https}", ws]
  {
    CleanNoSeparator(name);
    CleanNoSeparator(svc);
    CleanNoSeparator(ws);
    CleanNoSeparator(id);
    Key3Split(name, svc, ws);
    var key := CacheKey(name, svc, ws);
    CacheKeyClean(name, svc, ws);
    CleanNoSeparator(key);
    var fields := [id, name, svc, "CONFIG", "true", key, "{grpc%grpcs%http%https}", ws];
    assert PluginData(Key3(name, svc, ws), id) == Join(fields, ',');
    SplitJoin(fields, ',');
  }

  /** Unescaping eight fields of which only the seventh holds a `%`. */
  lemma UnescapeSeventh(a0: string, a1: string, a2: string, a3: string, a4: string, a5: string,
                        e: string, u: string, a7: string)
    requires '%' !in a0 && '%' !in a1 && '%' !in a2 && '%' !in a3 && '%' !in a4 && '%' !in a5 && '%' !in a7
    requires Replace(e, "%", ",") == u
    ensures ReplaceEach([a0, a1, a2, a3, a4, a5, e, a7], "%", ",") == [a0, a1, a2, a3, a4, a5, u, a7]
  {
    Kept(a0);
    Kept(a1);
    Kept(a2);
    Kept(a3);
    Kept(a4);
    Kept(a5);
    Kept(a7);
  }

  /** Only the escaped protocol list changes when the plugin fields are unescaped. */
  lemma PluginUnescape(name: string, svc: string, ws: string, id: string)
    requires Clean(name) && Clean(svc) && Clean(ws) && Clean(id)
    ensures ReplaceEach([id, name, svc, "CONFIG", "true", CacheKey(name, svc, ws), "{grpc%grpcs%http%https}", ws], "%", ",")
      == [id, name, svc, "CONFIG", "true", CacheKey(name, svc, ws), "{grpc,grpcs,http,https}", ws]
  {
    var key := CacheKey(name, svc, ws);
    CacheKeyClean(name, svc, ws);
    CleanNoSeparator(key);
    CleanNoSeparator(name);
    CleanNoSeparator(svc);
    CleanNoSeparator(ws);
    CleanNoSeparator(id);
    PluginProtocols();
    UnescapeSeventh(id, name, svc, "CONFIG", "true", key, "{grpc%grpcs%http%https}", "{grpc,grpcs,http,https}", ws);
  }

  /** Rewriting eight fields of which only the fourth is the placeholder. */
  lemma ConfigureFourth(a0: string, a1: string, a2: string, a4: string, a5: string, a6: string, a7: string,
                        config: string)
    requires Replace(a0, "CONFIG", config) == a0 && Replace(a1, "CONFIG", config) == a1
    requires Replace(a2, "CONFIG", config) == a2 && Replace(a4, "CONFIG", config) == a4
    requires Replace(a5, "CONFIG", config) == a5 && Replace(a6, "CONFIG", config) == a6
    requires Replace(a7, "CONFIG", config) == a7
    ensures ReplaceEach([a0, a1, a2, "CONFIG", a4, a5, a6, a7], "CONFIG", config)
      == [a0, a1, a2, config, a4, a5, a6, a7]
  {
    ReplaceWhole("CONFIG", config);
  }

  /** A plugin row has the eight plugin columns: the configuration in place of
      the placeholder, its cache key, and the protocol list with commas restored. */
  lemma PluginRowShape(name: string, svc: string, ws: string, id: string, config: string)
    requires Clean(name) && Clean(svc) && Clean(ws) && Clean(id)
    ensures 3 <= |Split(Key3(name, svc, ws), '^')|
    ensures PluginRow(Key3(name, svc, ws), id, config) ==
      [id, name, svc, config, "true", CacheKey(name, svc, ws), "{grpc,grpcs,http,https}", ws]
    ensures |PluginRow(Key3(name, svc, ws), id, config)| == |Columns(Plugins)|
  {
    PluginFieldsAre(name, svc, ws, id);
    PluginUnescape(name, svc, ws, id);
    CacheKeyClean(name, svc, ws);
    CleanUnchanged(id, config);
    CleanUnchanged(name, config);
    CleanUnchanged(svc, config);
    CleanUnchanged(ws, config);
    CleanUnchanged(CacheKey(name, svc, ws), config);
    ConfigFreeLiterals(config);
    ConfigureFourth(id, name, svc, "true", CacheKey(name, svc, ws), "{grpc,grpcs,http,https}", ws, config);
  }
}
