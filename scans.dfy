/** The step facts the `*_to_create` loops rely on: how the missing list and the
    rows hydrated from it grow when the scan over the wanted composites moves
    one composite further, and where the plugin scan stops. */
module Scans {
  import opened Strings
  import opened Store
  import opened Reconcile
  import opened Hydrate
  import opened Passes
  import opened Steps

  /** A step of any scan past a composite that is present: nothing new is missing. */
  lemma ScanFound(required: seq<string>, i: nat, active: seq<string>, n: nat)
    requires i < |required| && Splits(required, n) && required[i] in active
    ensures Splits(Missing(required[..i + 1], active), n)
    ensures Missing(required[..i + 1], active) == Missing(required[..i], active)
  {
    SplitsMissing(required, i + 1, active, n);
    MissingTakeFound(required, i, active);
  }

  /** A step of the `services_to_create` scan past an absent composite: its row,
      with the next id, is appended. */
  lemma ServicesScanAdded(required: seq<string>, i: nat, active: seq<string>, gen: nat -> string, start: nat, d: SvcDefaults,
                          rows: seq<Row>, next: nat, id: string)
    requires i < |required| && Splits(required, 2) && required[i] !in active
    requires Splits(Missing(required[..i], active), 2)
    requires rows == ServiceRows(Missing(required[..i], active), gen, start, d)
    requires next == start + |rows| && id == gen(next)
    ensures 2 <= |Split(required[i], '^')|
    ensures Splits(Missing(required[..i + 1], active), 2)
    ensures rows + [ServiceRow(required[i], id, d)] == ServiceRows(Missing(required[..i + 1], active), gen, start, d)
  {
    SplitsMissing(required, i + 1, active, 2);
    MissingTakeAbsent(required, i, active);
    ServiceRowsGrow(Missing(required[..i], active), required[i], Missing(required[..i + 1], active),
                    gen, start, d, rows, next, id);
  }

  /** A step of the `consumers_to_create` scan past an absent composite: its row,
      with the next id, is appended. */
  lemma ConsumersScanAdded(required: seq<string>, i: nat, active: seq<string>, gen: nat -> string, start: nat,
                           rows: seq<Row>, next: nat, id: string)
    requires i < |required| && Splits(required, 2) && required[i] !in active
    requires Splits(Missing(required[..i], active), 2)
    requires rows == ConsumerRows(Missing(required[..i], active), gen, start)
    requires next == start + |rows| && id == gen(next)
    ensures 2 <= |Split(required[i], '^')|
    ensures Splits(Missing(required[..i + 1], active), 2)
    ensures rows + [ConsumerRow(required[i], id)] == ConsumerRows(Missing(required[..i + 1], active), gen, start)
  {
    SplitsMissing(required, i + 1, active, 2);
    MissingTakeAbsent(required, i, active);
    ConsumerRowsGrow(Missing(required[..i], active), required[i], Missing(required[..i + 1], active),
                     gen, start, rows, next, id);
  }

  /** A step of the `routes_to_create` scan past an absent composite: its row,
      with the next id, is appended. */
  lemma RoutesScanAdded(required: seq<string>, i: nat, active: seq<string>, gen: nat -> string, start: nat,
                        rows: seq<Row>, next: nat, id: string)
    requires i < |required| && Splits(required, 3) && required[i] !in active
    requires Splits(Missing(required[..i], active), 3)
    requires rows == RouteRows(Missing(required[..i], active), gen, start)
    requires next == start + |rows| && id == gen(next)
    ensures 3 <= |Split(required[i], '^')|
    ensures Splits(Missing(required[..i + 1], active), 3)
    ensures rows + [RouteRow(required[i], id)] == RouteRows(Missing(required[..i + 1], active), gen, start)
  {
    SplitsMissing(required, i + 1, active, 3);
    MissingTakeAbsent(required, i, active);
    RouteRowsGrow(Missing(required[..i], active), required[i], Missing(required[..i + 1], active),
                  gen, start, rows, next, id);
  }

  /** A step of the `plugins_to_create` scan past an absent composite whose
      plugin has a configuration: its row, with the next id, is appended. */
  lemma PluginsScanAdded(required: seq<string>, i: nat, active: seq<string>, gen: nat -> string, start: nat,
                         configs: map<string, string>, rows: seq<Row>, next: nat, id: string)
    requires i < |required| && Splits(required, 3) && required[i] !in active && PluginOf(required[i]) in configs
    requires Splits(Missing(required[..i], active), 3) && Configured(Missing(required[..i], active), configs)
    requires rows == PluginRows(Missing(required[..i], active), gen, start, configs)
    requires next == start + |rows| && id == gen(next)
    ensures 3 <= |Split(required[i], '^')|
    ensures Splits(Missing(required[..i + 1], active), 3)
    ensures Configured(Missing(required[..i + 1], active), configs)
    ensures rows + [PluginRow(required[i], id, configs[PluginOf(required[i])])]
         == PluginRows(Missing(required[..i + 1], active), gen, start, configs)
  {
    SplitsMissing(required, i + 1, active, 3);
    MissingTakeAbsent(required, i, active);
    PluginRowsGrow(Missing(required[..i], active), required[i], Missing(required[..i + 1], active),
                   gen, start, configs, rows, next, id);
  }

  /** A composite without configuration ends the scan: the gap is where it stands. */
  lemma PluginsGap(required: seq<string>, i: nat, active: seq<string>, configs: map<string, string>)
    requires i < |required| && Splits(required, 3) && required[i] !in active
    requires Configured(Missing(required[..i], active), configs) && PluginOf(required[i]) !in configs
    ensures Splits(Missing(required, active), 3)
    ensures !Configured(Missing(required, active), configs)
    ensures ConfigGap(Missing(required, active), configs) == |Missing(required[..i], active)|
  {
    SplitsMissing(required, |required|, active, 3);
    assert required[..|required|] == required;
    MissingTakeAbsent(required, i, active);
    MissingConcat(required[..i + 1], required[i + 1..], active);
    assert required[..i + 1] + required[i + 1..] == required;
    GapAfter(Missing(required[..i], active), required[i], Missing(required[i + 1..], active), configs);
  }

  /** A scan that reaches the end of the wanted composites yields every row. */
  lemma PluginsEnd(db: Snapshot, p: Plan, gen: nat -> string, start: nat, required: seq<string>,
                   active: seq<string>, rows: seq<Row>)
    requires required == RequiredPluginNames(db, p) && active == PluginKeys(Active(db, Plugins, p.requiredNames))
    requires Splits(Missing(required[..|required|], active), 3)
    requires Configured(Missing(required[..|required|], active), p.configs)
    requires rows == PluginRows(Missing(required[..|required|], active), gen, start, p.configs)
    ensures PluginsToCreate(db, p, gen, start) == Some(rows)
  {
    assert required[..|required|] == required;
  }

  /** A scan that stops at an unconfigured plugin yields nothing, and the ids it
      drew are those of the configured composites before it. */
  lemma PluginsStop(db: Snapshot, p: Plan, gen: nat -> string, start: nat, required: seq<string>, i: nat,
                    active: seq<string>)
    requires required == RequiredPluginNames(db, p) && active == PluginKeys(Active(db, Plugins, p.requiredNames))
    requires i < |required| && Splits(required, 3) && required[i] !in active
    requires Configured(Missing(required[..i], active), p.configs) && PluginOf(required[i]) !in p.configs
    ensures PluginsToCreate(db, p, gen, start) == None
    ensures ConfigGap(PluginsMissing(db, p), p.configs) == |Missing(required[..i], active)|
  {
    PluginsGap(required, i, active, p.configs);
  }
}
