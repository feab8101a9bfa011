/** How the lists the `*_to_create` loops build grow by one element: the
    missing composites, the rows hydrated from them, the role rows and the
    derived name pairs. */
module Steps {
  import opened Strings
  import opened Store
  import opened Reconcile
  import opened Hydrate
  import opened Passes

  lemma SplitsMissing(required: seq<string>, i: nat, current: seq<string>, n: nat)
    requires i <= |required| && Splits(required, n)
    ensures Splits(Missing(required[..i], current), n)
  {
    var m := Missing(required[..i], current);
    forall k | 0 <= k < |m| ensures n <= |Split(m[k], '^')| {
      assert m[k] in required[..i];
      var j :| 0 <= j < i && required[..i][j] == m[k];
    }
  }

  lemma SplitsSnoc(m: seq<string>, x: string, n: nat)
    requires Splits(m + [x], n)
    ensures Splits(m, n) && n <= |Split(x, '^')|
  {
    assert (m + [x])[|m|] == x;
    forall k | 0 <= k < |m| ensures n <= |Split(m[k], '^')| {
      assert (m + [x])[k] == m[k];
    }
  }

  lemma ServiceRowsSnoc(m: seq<string>, x: string, gen: nat -> string, start: nat, d: SvcDefaults)
    requires Splits(m + [x], 2)
    ensures Splits(m, 2) && 2 <= |Split(x, '^')|
    ensures ServiceRows(m + [x], gen, start, d) == ServiceRows(m, gen, start, d) + [ServiceRow(x, gen(start + |m|), d)]
  {
    SplitsSnoc(m, x, 2);
  }

  lemma ConsumerRowsSnoc(m: seq<string>, x: string, gen: nat -> string, start: nat)
    requires Splits(m + [x], 2)
    ensures Splits(m, 2) && 2 <= |Split(x, '^')|
    ensures ConsumerRows(m + [x], gen, start) == ConsumerRows(m, gen, start) + [ConsumerRow(x, gen(start + |m|))]
  {
    SplitsSnoc(m, x, 2);
  }

  lemma RouteRowsSnoc(m: seq<string>, x: string, gen: nat -> string, start: nat)
    requires Splits(m + [x], 3)
    ensures Splits(m, 3) && 3 <= |Split(x, '^')|
    ensures RouteRows(m + [x], gen, start) == RouteRows(m, gen, start) + [RouteRow(x, gen(start + |m|))]
  {
    SplitsSnoc(m, x, 3);
  }

  lemma PluginRowsSnoc(m: seq<string>, x: string, gen: nat -> string, start: nat, configs: map<string, string>)
    requires Splits(m + [x], 3) && Configured(m + [x], configs)
    ensures Splits(m, 3) && 3 <= |Split(x, '^')| && Configured(m, configs) && PluginOf(x) in configs
    ensures PluginRows(m + [x], gen, start, configs)
         == PluginRows(m, gen, start, configs) + [PluginRow(x, gen(start + |m|), configs[PluginOf(x)])]
  {
    SplitsSnoc(m, x, 3);
    assert (m + [x])[|m|] == x;
    forall k | 0 <= k < |m| ensures PluginOf(m[k]) in configs {
      assert (m + [x])[k] == m[k];
    }
  }

  lemma RoleRowsTake(todo: seq<Row>, i: nat, gen: nat -> string, start: nat)
    requires i < |todo|
    ensures RoleRows(todo[..i + 1], gen, start) == RoleRows(todo[..i], gen, start) + [RoleRow(todo[i], gen(start + i))]
  {
  }

  lemma NameRowsSnoc(prefix: string, entity: string, gen: nat -> string, start: nat, e: nat)
    ensures NameRows(prefix, entity, gen, start, e + 1)
         == NameRows(prefix, entity, gen, start, e) + [[gen(start + e), DerivedName(prefix, entity, e)]]
  {
  }

  /** A configured list stays configured when a configured composite is appended. */
  lemma ConfiguredSnoc(m: seq<string>, x: string, configs: map<string, string>)
    requires Configured(m, configs) && PluginOf(x) in configs
    ensures Configured(m + [x], configs)
  {
    forall k | 0 <= k < |m| + 1 ensures PluginOf((m + [x])[k]) in configs {
      if k < |m| { assert (m + [x])[k] == m[k]; }
    }
  }

  /** Appending a composite to a missing list appends its hydrated row, with the
      next id, to the rows. */
  lemma ServiceRowsGrow(m: seq<string>, x: string, m1: seq<string>, gen: nat -> string, start: nat, d: SvcDefaults,
                        rows: seq<Row>, next: nat, id: string)
    requires Splits(m, 2) && m1 == m + [x] && Splits(m1, 2)
    requires rows == ServiceRows(m, gen, start, d)
    requires next == start + |rows| && id == gen(next)
    ensures 2 <= |Split(x, '^')|
    ensures rows + [ServiceRow(x, id, d)] == ServiceRows(m1, gen, start, d)
  {
    ServiceRowsSnoc(m, x, gen, start, d);
  }

  /** Appending a composite to a missing list appends its hydrated row, with the
      next id, to the rows. */
  lemma ConsumerRowsGrow(m: seq<string>, x: string, m1: seq<string>, gen: nat -> string, start: nat, rows: seq<Row>,
                         next: nat, id: string)
    requires Splits(m, 2) && m1 == m + [x] && Splits(m1, 2)
    requires rows == ConsumerRows(m, gen, start)
    requires next == start + |rows| && id == gen(next)
    ensures 2 <= |Split(x, '^')|
    ensures rows + [ConsumerRow(x, id)] == ConsumerRows(m1, gen, start)
  {
    ConsumerRowsSnoc(m, x, gen, start);
  }

  /** Appending a composite to a missing list appends its hydrated row, with the
      next id, to the rows. */
  lemma RouteRowsGrow(m: seq<string>, x: string, m1: seq<string>, gen: nat -> string, start: nat, rows: seq<Row>,
                      next: nat, id: string)
    requires Splits(m, 3) && m1 == m + [x] && Splits(m1, 3)
    requires rows == RouteRows(m, gen, start)
    requires next == start + |rows| && id == gen(next)
    ensures 3 <= |Split(x, '^')|
    ensures rows + [RouteRow(x, id)] == RouteRows(m1, gen, start)
  {
    RouteRowsSnoc(m, x, gen, start);
  }

  /** Appending a configured composite appends its row, configured from the
      plugin's entry, to the rows. */
  lemma PluginRowsGrow(m: seq<string>, x: string, m1: seq<string>, gen: nat -> string, start: nat,
                       configs: map<string, string>, rows: seq<Row>, next: nat, id: string)
    requires Splits(m, 3) && m1 == m + [x] && Splits(m1, 3)
    requires Configured(m, configs) && PluginOf(x) in configs
    requires rows == PluginRows(m, gen, start, configs)
    requires next == start + |rows| && id == gen(next)
    ensures 3 <= |Split(x, '^')| && Configured(m1, configs)
    ensures rows + [PluginRow(x, id, configs[PluginOf(x)])] == PluginRows(m1, gen, start, configs)
  {
    ConfiguredSnoc(m, x, configs);
    PluginRowsSnoc(m, x, gen, start, configs);
  }

  /** A configured workspace whose name is stored already adds no row. */
  lemma WorkspaceKept(before: seq<Row>, i: nat, ws: seq<Row>, raw: seq<Row>)
    requires i < |before| && At(before[i], 1) in Keys(ws, WsName)
    requires raw == WorkspaceRows(before[..i], ws)
    ensures raw == WorkspaceRows(before[..i + 1], ws)
  {
    assert before[..i + 1][..i] == before[..i];
    assert WorkspacesAbsent(before[..i + 1], ws) == WorkspacesAbsent(before[..i], ws);
  }

  /** A configured workspace whose name is not stored adds its pair with the metadata. */
  lemma WorkspaceAdded(before: seq<Row>, i: nat, ws: seq<Row>, raw: seq<Row>)
    requires i < |before| && At(before[i], 1) !in Keys(ws, WsName)
    requires raw == WorkspaceRows(before[..i], ws)
    ensures raw + [before[i] + [Meta]] == WorkspaceRows(before[..i + 1], ws)
  {
    assert before[..i + 1][..i] == before[..i];
    assert WorkspacesAbsent(before[..i + 1], ws) == WorkspacesAbsent(before[..i], ws) + [before[i]];
  }

  lemma WithMetaKept(before: seq<Row>, ws: seq<Row>, i: nat)
    requires i < |before| && At(before[i], 1) in Keys(ws, WsName)
    ensures WithMeta(before, ws)[i] == before[i]
  {
  }

  lemma WithMetaAdded(before: seq<Row>, ws: seq<Row>, i: nat)
    requires i < |before| && At(before[i], 1) !in Keys(ws, WsName)
    ensures WithMeta(before, ws)[i] == before[i] + [Meta]
  {
  }

  /** The names in a column are the keys of that column. */
  lemma ColumnKeys(rows: seq<Row>, col: nat, x: string)
    ensures x in Column(rows, col) <==> x in Keys(rows, col)
  {
    ColumnHas(rows, col, x);
  }
}
