/** The Kong database as the importer sees it. Each table is held as the
    dictionary that a projection query builds from it: rows keyed by the first
    projected column, in first-arrival order, a later row with the same key
    replacing the earlier one in place. The connection and the COPY streaming
    are not modelled; bulk insert and bulk delete are methods on the store. */
module Store {

  /** The seven tables the importer touches. */
  datatype Table = Workspaces | RbacRoles | RbacRoleEndpoints | Services | Routes | Consumers | Plugins

  /** A row, positionally, in the column order of `Columns`. */
  type Row = seq<string>

  /** The contents of every table. */
  type Snapshot = map<Table, seq<Row>>

  /** The columns the importer writes, in the order its bulk inserts name them. */
  function Columns(t: Table): seq<string>
  {
    match t
    case Workspaces => ["id", "name", "meta"]
    case RbacRoles => ["id", "name", "comment", "is_default", "ws_id"]
    case RbacRoleEndpoints => ["role_id", "workspace", "endpoint", "actions", "negative"]
    case Services =>
      ["id", "name", "retries", "protocol", "host", "port", "path",
       "connect_timeout", "write_timeout", "read_timeout", "ws_id", "enabled"]
    case Routes =>
      ["id", "name", "service_id", "protocols", "paths", "regex_priority", "strip_path",
       "preserve_host", "https_redirect_status_code", "path_handling", "ws_id",
       "request_buffering", "response_buffering"]
    case Consumers => ["id", "username", "ws_id", "username_lower", "type"]
    case Plugins => ["id", "name", "service_id", "config", "enabled", "cache_key", "protocols", "ws_id"]
  }

  // Positions of the columns that the projection queries read.
  const WsId: nat := 0
  const WsName: nat := 1
  const RoleId: nat := 0
  const RoleWsId: nat := 4
  const EndpointRoleId: nat := 0
  const EndpointWorkspace: nat := 1
  const SvcId: nat := 0
  const SvcName: nat := 1
  const SvcWsId: nat := 10
  const RouteId: nat := 0
  const RouteName: nat := 1
  const RouteServiceId: nat := 2
  const RouteWsId: nat := 10
  const ConsumerId: nat := 0
  const ConsumerUsername: nat := 1
  const ConsumerWsId: nat := 2
  const PluginId: nat := 0
  const PluginName: nat := 1
  const PluginServiceId: nat := 2
  const PluginCacheKey: nat := 5
  const PluginWsId: nat := 7

  /** The first column of each table's projection query, which keys its dictionary:
      workspaces by name, role endpoints by role, everything else by id. */
  function KeyColumn(t: Table): nat
  {
    if t == Workspaces then WsName else 0
  }

  /** A column of a row; a missing column reads as the empty string. */
  function At(r: Row, i: nat): string
  {
    if i < |r| then r[i] else ""
  }

  /** The rows of a table; a table never written is empty. */
  function Rows(db: Snapshot, t: Table): seq<Row>
  {
    if t in db then db[t] else []
  }

  /** One column of every row, in row order. */
  function Column(rows: seq<Row>, col: nat): (r: seq<string>)
    ensures |r| == |rows|
    ensures forall i :: 0 <= i < |rows| ==> r[i] == At(rows[i], col)
  {
    seq(|rows|, i requires 0 <= i < |rows| => At(rows[i], col))
  }

  /** A value is in a column exactly when some row holds it there. */
  lemma ColumnHas(rows: seq<Row>, col: nat, x: string)
    ensures x in Column(rows, col) <==> exists r :: r in rows && At(r, col) == x
  {
    var c := Column(rows, col);
    if exists r :: r in rows && At(r, col) == x {
      var r :| r in rows && At(r, col) == x;
      var i :| 0 <= i < |rows| && rows[i] == r;
      assert c[i] == x;
    }
  }

  /** The keys present among `rows`. */
  function Keys(rows: seq<Row>, k: nat): set<string>
  {
    set r | r in rows :: At(r, k)
  }

  ghost predicate KeysDistinct(rows: seq<Row>, k: nat)
  {
    forall i, j :: 0 <= i < j < |rows| ==> At(rows[i], k) != At(rows[j], k)
  }

  ghost predicate Fits(t: Table, rows: seq<Row>)
  {
    forall i :: 0 <= i < |rows| ==> |rows[i]| == |Columns(t)|
  }

  /** `data[row[k]] = row`: replace the row with the same key, else append. */
  function Put(rows: seq<Row>, k: nat, r: Row): (out: seq<Row>)
    ensures r in out
    ensures forall x :: x in out ==> x == r || x in rows
    ensures forall x :: x in rows && At(x, k) != At(r, k) ==> x in out
    ensures At(r, k) !in Keys(rows, k) ==> out == rows + [r]
    decreases |rows|
  {
    if rows == [] then [r]
    else if At(rows[0], k) == At(r, k) then [r] + rows[1..]
    else
      assert At(r, k) !in Keys(rows, k) ==> At(r, k) !in Keys(rows[1..], k);
      [rows[0]] + Put(rows[1..], k, r)
  }

  /** The keys after a `Put` are the old keys and the new row's key. */
  lemma PutKeys(rows: seq<Row>, k: nat, r: Row)
    ensures Keys(Put(rows, k, r), k) == Keys(rows, k) + {At(r, k)}
  {
    var out := Put(rows, k, r);
    forall x | x in Keys(rows, k) + {At(r, k)} ensures x in Keys(out, k) {
      if x != At(r, k) {
        var y :| y in rows && At(y, k) == x;
        assert y in out;
      }
    }
  }

  /** In a list with distinct keys the first key does not recur, and the rest
      has distinct keys. */
  lemma DistinctHead(rows: seq<Row>, k: nat)
    requires rows != [] && KeysDistinct(rows, k)
    ensures At(rows[0], k) !in Keys(rows[1..], k) && KeysDistinct(rows[1..], k)
  {
    forall y | y in rows[1..] ensures At(y, k) != At(rows[0], k) {
      var i :| 0 <= i < |rows[1..]| && rows[1..][i] == y;
      assert rows[i + 1] == y;
    }
    forall i, j | 0 <= i < j < |rows[1..]| ensures At(rows[1..][i], k) != At(rows[1..][j], k) {
      assert rows[1..][i] == rows[i + 1] && rows[1..][j] == rows[j + 1];
    }
  }

  /** A row with a new key in front of distinct keys keeps them distinct. */
  lemma ConsDistinct(x: Row, rows: seq<Row>, k: nat)
    requires KeysDistinct(rows, k) && At(x, k) !in Keys(rows, k)
    ensures KeysDistinct([x] + rows, k)
  {
    var out := [x] + rows;
    forall i, j | 0 <= i < j < |out| ensures At(out[i], k) != At(out[j], k) {
      assert out[j] == rows[j - 1];
      if i == 0 {
        assert rows[j - 1] in rows;
      } else {
        assert out[i] == rows[i - 1];
      }
    }
  }

  lemma {:induction false} PutDistinct(rows: seq<Row>, k: nat, r: Row)
    requires KeysDistinct(rows, k)
    ensures KeysDistinct(Put(rows, k, r), k)
    decreases |rows|
  {
    if rows != [] {
      DistinctHead(rows, k);
      if At(rows[0], k) == At(r, k) {
        ConsDistinct(r, rows[1..], k);
      } else {
        PutDistinct(rows[1..], k, r);
        PutKeys(rows[1..], k, r);
        ConsDistinct(rows[0], Put(rows[1..], k, r), k);
      }
    }
  }

  /** A batch of `Put`s, in order. */
  function PutAll(rows: seq<Row>, k: nat, batch: seq<Row>): seq<Row>
    decreases |batch|
  {
    if batch == [] then rows
    else Put(PutAll(rows, k, batch[..|batch| - 1]), k, batch[|batch| - 1])
  }

  lemma PutAllSnoc(rows: seq<Row>, k: nat, batch: seq<Row>, r: Row)
    ensures PutAll(rows, k, batch + [r]) == Put(PutAll(rows, k, batch), k, r)
  {
    assert (batch + [r])[..|batch|] == batch;
  }

  /** Staging one more row of a batch puts that row into the staged table. */
  lemma PutAllGrow(rows: seq<Row>, k: nat, batch: seq<Row>, i: nat)
    requires i < |batch|
    ensures PutAll(rows, k, batch[..i + 1]) == Put(PutAll(rows, k, batch[..i]), k, batch[i])
  {
    assert batch[..i + 1] == batch[..i] + [batch[i]];
    PutAllSnoc(rows, k, batch[..i], batch[i]);
  }

  lemma FitsGrow(t: Table, rows: seq<Row>, i: nat)
    requires i < |rows| && Fits(t, rows[..i]) && |rows[i]| == |Columns(t)|
    ensures Fits(t, rows[..i + 1])
  {
    assert rows[..i + 1] == rows[..i] + [rows[i]];
  }

  /** In a list with distinct keys the last key does not occur before it. */
  lemma DistinctLast(batch: seq<Row>, k: nat)
    requires batch != [] && KeysDistinct(batch, k)
    ensures At(batch[|batch| - 1], k) !in Keys(batch[..|batch| - 1], k)
    ensures KeysDistinct(batch[..|batch| - 1], k)
  {
    var init := batch[..|batch| - 1];
    forall y | y in init ensures At(y, k) != At(batch[|batch| - 1], k) {
      var i :| 0 <= i < |init| && init[i] == y;
      assert batch[i] == y;
    }
    forall i, j | 0 <= i < j < |init| ensures At(init[i], k) != At(init[j], k) {
      assert init[i] == batch[i] && init[j] == batch[j];
    }
  }

  lemma KeysConcat(a: seq<Row>, b: seq<Row>, k: nat)
    ensures Keys(a + b, k) == Keys(a, k) + Keys(b, k)
  {
    assert forall x :: x in a + b <==> x in a || x in b;
  }

  /** A batch whose keys are distinct and new is simply appended. */
  lemma {:induction false} PutAllFresh(rows: seq<Row>, k: nat, batch: seq<Row>)
    requires forall j :: 0 <= j < |batch| ==> At(batch[j], k) !in Keys(rows, k)
    requires KeysDistinct(batch, k)
    ensures PutAll(rows, k, batch) == rows + batch
    decreases |batch|
  {
    if batch != [] {
      var init := batch[..|batch| - 1];
      var last := batch[|batch| - 1];
      DistinctLast(batch, k);
      PutAllFresh(rows, k, init);
      KeysConcat(rows, init, k);
      assert At(last, k) !in Keys(rows + init, k);
      assert rows + init + [last] == rows + batch;
    }
  }

  lemma KeysSnoc(rows: seq<Row>, k: nat, r: Row)
    ensures Keys(rows + [r], k) == Keys(rows, k) + {At(r, k)}
  {
    assert forall x :: x in rows + [r] <==> x in rows || x == r;
  }

  /** After a batch, the keys are the old keys and the batch's keys. */
  lemma {:induction false} PutAllKeys(rows: seq<Row>, k: nat, batch: seq<Row>)
    ensures Keys(PutAll(rows, k, batch), k) == Keys(rows, k) + Keys(batch, k)
    decreases |batch|
  {
    if batch != [] {
      var init := batch[..|batch| - 1];
      var last := batch[|batch| - 1];
      var before := PutAll(rows, k, init);
      calc {
        Keys(PutAll(rows, k, batch), k);
        Keys(Put(before, k, last), k);
        { PutKeys(before, k, last); }
        Keys(before, k) + {At(last, k)};
        { PutAllKeys(rows, k, init); }
        Keys(rows, k) + Keys(init, k) + {At(last, k)};
        { KeysSnoc(init, k, last); assert init + [last] == batch; }
        Keys(rows, k) + Keys(batch, k);
      }
    }
  }

  lemma {:induction false} PutAllDistinct(rows: seq<Row>, k: nat, batch: seq<Row>)
    requires KeysDistinct(rows, k)
    ensures KeysDistinct(PutAll(rows, k, batch), k)
    decreases |batch|
  {
    if batch != [] {
      PutAllDistinct(rows, k, batch[..|batch| - 1]);
      PutDistinct(PutAll(rows, k, batch[..|batch| - 1]), k, batch[|batch| - 1]);
    }
  }

  /** Every row after a batch of full-width rows is full width. */
  lemma {:induction false} PutAllFits(rows: seq<Row>, k: nat, batch: seq<Row>, t: Table)
    requires Fits(t, rows) && Fits(t, batch)
    ensures Fits(t, PutAll(rows, k, batch))
    decreases |batch|
  {
    if batch != [] {
      var init := batch[..|batch| - 1];
      PutAllFits(rows, k, init, t);
      var out := PutAll(rows, k, batch);
      forall j | 0 <= j < |out| ensures |out[j]| == |Columns(t)| {
        assert out[j] in out;
        if out[j] != batch[|batch| - 1] {
          var i :| 0 <= i < |PutAll(rows, k, init)| && PutAll(rows, k, init)[i] == out[j];
        }
      }
    }
  }

  /** The rows whose column `col` holds none of `ids`: `DELETE ... WHERE col IN ids`. */
  function Remove(rows: seq<Row>, col: nat, ids: set<string>): (out: seq<Row>)
    ensures |out| <= |rows|
    ensures forall x :: x in out <==> x in rows && At(x, col) !in ids
    decreases |rows|
  {
    if rows == [] then []
    else
      var init := Remove(rows[..|rows| - 1], col, ids);
      var last := rows[|rows| - 1];
      assert rows == rows[..|rows| - 1] + [last];
      if At(last, col) in ids then init else init + [last]
  }

  lemma {:induction false} RemoveDistinct(rows: seq<Row>, col: nat, ids: set<string>, k: nat)
    requires KeysDistinct(rows, k)
    ensures KeysDistinct(Remove(rows, col, ids), k)
    decreases |rows|
  {
    if rows != [] {
      var pre := rows[..|rows| - 1];
      var last := rows[|rows| - 1];
      RemoveDistinct(pre, col, ids, k);
      var init := Remove(pre, col, ids);
      forall i | 0 <= i < |init| ensures At(init[i], k) != At(last, k) {
        assert init[i] in pre;
        var j :| 0 <= j < |pre| && pre[j] == init[i];
        assert rows[j] == init[i];
      }
    }
  }

  /** The snapshot after appending `rows` to table `t`. */
  function Inserted(db: Snapshot, t: Table, rows: seq<Row>): Snapshot
  {
    db[t := PutAll(Rows(db, t), KeyColumn(t), rows)]
  }

  /** The snapshot after deleting from `t` the rows whose column `col` is one of `ids`. */
  function Deleted(db: Snapshot, t: Table, ids: seq<string>, col: nat): Snapshot
  {
    db[t := Remove(Rows(db, t), col, set x | x in ids)]
  }

  /** Every table holds full-width rows with distinct keys. */
  ghost predicate Sound(db: Snapshot)
  {
    forall t :: Fits(t, Rows(db, t)) && KeysDistinct(Rows(db, t), KeyColumn(t))
  }

  lemma SoundUpdate(db: Snapshot, t: Table, rows: seq<Row>)
    requires Sound(db) && Fits(t, rows) && KeysDistinct(rows, KeyColumn(t))
    ensures Sound(db[t := rows])
  {
    forall u ensures Fits(u, Rows(db[t := rows], u)) && KeysDistinct(Rows(db[t := rows], u), KeyColumn(u)) {
      if u != t { assert Rows(db[t := rows], u) == Rows(db, u); }
    }
  }

  lemma RemoveFits(rows: seq<Row>, col: nat, ids: set<string>, t: Table)
    requires Fits(t, rows)
    ensures Fits(t, Remove(rows, col, ids))
  {
    var out := Remove(rows, col, ids);
    forall j | 0 <= j < |out| ensures |out[j]| == |Columns(t)| {
      assert out[j] in rows;
    }
  }

  /** A bulk operation handed to the store, with the number of rows or ids it carried. */
  datatype Op = Create(table: Table, count: nat) | Delete(table: Table, count: nat)

  class Store {
    /** What the tables hold. */
    var db: Snapshot
    /** The bulk operations issued so far, in order. */
    var log: seq<Op>

    ghost predicate Valid()
      reads this
    {
      Sound(db)
    }

    constructor (initial: Snapshot)
      requires Sound(initial)
      ensures Valid() && db == initial && log == []
    {
      db := initial;
      log := [];
    }

    /** `insert_into_table`: one COPY of `rows` into `t`. The only failure this
        model knows is a row of the wrong width; the transaction then leaves the
        table untouched. */
    method Insert(t: Table, rows: seq<Row>) returns (ok: bool)
      requires Valid()
      modifies this
      ensures Valid()
      ensures log == old(log) + [Create(t, |rows|)]
      ensures ok == Fits(t, rows)
      ensures db == if ok then Inserted(old(db), t, rows) else old(db)
    {
      log := log + [Create(t, |rows|)];
      var k := KeyColumn(t);
      var base := Rows(db, t);
      var staged := base;
      var i := 0;
      while i < |rows|
        invariant 0 <= i <= |rows|
        invariant staged == PutAll(base, k, rows[..i])
        invariant Fits(t, rows[..i])
        invariant db == old(db) && log == old(log) + [Create(t, |rows|)]
      {
        if |rows[i]| != |Columns(t)| {
          ok := false;
          return;
        }
        PutAllGrow(base, k, rows, i);
        FitsGrow(t, rows, i);
        staged := Put(staged, k, rows[i]);
        i := i + 1;
      }
      assert rows[..i] == rows;
      PutAllDistinct(base, k, rows);
      PutAllFits(base, k, rows, t);
      SoundUpdate(db, t, staged);
      db := db[t := staged];
      ok := true;
    }

    /** `delete_from_table`: stage the ids, then delete every row of `t` whose
        column `col` is one of them. */
    method Delete(t: Table, ids: seq<string>, col: nat)
      requires Valid()
      modifies this
      ensures Valid()
      ensures log == old(log) + [Op.Delete(t, |ids|)]
      ensures db == Deleted(old(db), t, ids, col)
    {
      log := log + [Op.Delete(t, |ids|)];
      var staging: set<string> := {};
      for i := 0 to |ids|
        invariant staging == set j | 0 <= j < i :: ids[j]
      {
        staging := staging + {ids[i]};
      }
      assert staging == set x | x in ids;
      RemoveDistinct(Rows(db, t), col, staging, KeyColumn(t));
      RemoveFits(Rows(db, t), col, staging, t);
      SoundUpdate(db, t, Remove(Rows(db, t), col, staging));
      db := db[t := Remove(Rows(db, t), col, staging)];
    }
  }

}
