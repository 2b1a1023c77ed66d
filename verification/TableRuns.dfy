/** Runs of the order table against a plain map from id to row. */
module TableRuns {
  import opened Common
  import opened OrderTypes
  import opened ExecOrderTable

  datatype TableOp =
    | InsertOp(row: OrderRow)
    | EraseOp(id: nat)
    | LeavesOp(id: nat, leaves: int)

  /** The operations on a plain map; a table of maxRows rows refuses what does not fit. */
  function OnMap(m: map<nat, OrderRow>, maxRows: nat, op: TableOp): map<nat, OrderRow> {
    match op
    case InsertOp(r) => if |m| < maxRows && r.id != INVALID_ORDER && r.id !in m then m[r.id := r] else m
    case EraseOp(id) => m - {id}
    case LeavesOp(id, leaves) => if id in m then m[id := m[id].(leaves := leaves)] else m
  }

  function MapAfter(maxRows: nat, ops: seq<TableOp>): map<nat, OrderRow> {
    if ops == [] then map[] else OnMap(MapAfter(maxRows, ops[..|ops| - 1]), maxRows, ops[|ops| - 1])
  }

  /** Looking an id up in the dense rows gives what the map holds for it. */
  ghost predicate Agrees(rows: seq<OrderRow>, m: map<nat, OrderRow>) {
    && UniqueIds(rows) && |rows| == |m|
    && (forall id :: id in m <==> FindRow(rows, id).Some?)
    && (forall i :: 0 <= i < |rows| ==> rows[i].id in m && m[rows[i].id] == rows[i])
  }

  lemma InsertAgrees(rows: seq<OrderRow>, m: map<nat, OrderRow>, r: OrderRow)
    requires Agrees(rows, m) && r.id !in m
    ensures Agrees(rows + [r], m[r.id := r])
  {
    hide FindRow;
    UniqueAppend(rows, r);
    FindAppend(rows, r);
    assert m[r.id := r].Keys == m.Keys + {r.id};
    assert |m[r.id := r].Keys| == |m.Keys| + 1;
  }

  lemma EraseAgrees(rows: seq<OrderRow>, m: map<nat, OrderRow>, p: nat)
    requires Agrees(rows, m) && p < |rows|
    ensures Agrees(SwapRemove(rows, p), m - {rows[p].id})
  {
    hide FindRow;
    var rest, id := SwapRemove(rows, p), rows[p].id;
    FindSwapRemove(rows, p);
    assert (m - {id}).Keys == m.Keys - {id} && |(m - {id}).Keys| == |m.Keys| - 1;
    forall i | 0 <= i < |rest|
      ensures rest[i].id in m - {id} && (m - {id})[rest[i].id] == rest[i]
    {
      assert rest[i] == rows[if i == p then |rows| - 1 else i];
      assert FindRow(rest, rest[i].id).Some? by { FindUnique(rest, i); }
    }
  }

  lemma LeavesAgree(rows: seq<OrderRow>, m: map<nat, OrderRow>, p: nat, leaves: int)
    requires Agrees(rows, m) && p < |rows|
    ensures Agrees(rows[p := rows[p].(leaves := leaves)], m[rows[p].id := rows[p].(leaves := leaves)])
  {
    hide FindRow;
    var r := rows[p].(leaves := leaves);
    UniqueUpdate(rows, p, r);
    FindUpdate(rows, p, r);
    assert m[r.id := r].Keys == m.Keys;
    assert |m[r.id := r].Keys| == |m.Keys|;
  }

  /** What find says of an id. */
  function Lookup(rows: seq<OrderRow>, id: nat): Option<OrderRow> {
    var p := FindRow(rows, id);
    if p.Some? then Some(rows[p.value]) else None
  }

  lemma LookupIsMap(rows: seq<OrderRow>, m: map<nat, OrderRow>, id: nat)
    requires Agrees(rows, m)
    ensures Lookup(rows, id) == if id in m then Some(m[id]) else None
  {
  }

  method Apply(t: OrderTable, ghost m: map<nat, OrderRow>, op: TableOp)
    requires t.Valid() && Agrees(t.contents, m) && (op.InsertOp? ==> op.row.instrument < t.live.Length)
    modifies t, t.index, t.rows, t.live, t.openBuy, t.openSell
    ensures t.Valid() && Agrees(t.contents, OnMap(m, t.rows.Length, op))
  {
    hide OrderTable.Valid, FindRow, Agrees;
    match op {
      case InsertOp(r) =>
        LookupIsMap(t.contents, m, r.id);
        SameSize(t.contents, m);
        if r.id !in m {
          InsertAgrees(t.contents, m, r);
        }
        var _ := t.Insert(r);
      case EraseOp(id) =>
        LookupIsMap(t.contents, m, id);
        var p := t.Find(id);
        if p.Some? {
          EraseAgrees(t.contents, m, p.value);
        } else {
          assert m - {id} == m;
        }
        t.Erase(id);
      case LeavesOp(id, leaves) =>
        LookupIsMap(t.contents, m, id);
        var p := t.Find(id);
        if p.Some? {
          LeavesAgree(t.contents, m, p.value, leaves);
          Dense(t);
          t.SetLeaves(p.value, leaves);
        }
    }
  }

  lemma SameSize(rows: seq<OrderRow>, m: map<nat, OrderRow>)
    requires Agrees(rows, m)
    ensures |rows| == |m|
  {
  }

  lemma Dense(t: OrderTable)
    requires t.Valid()
    ensures t.n == |t.contents|
  {
  }

  /** After any run of operations on a new table, find answers as the plain map does for every id. */
  method Replay(t: OrderTable, ops: seq<TableOp>)
    requires t.Valid() && t.contents == []
    requires forall k :: 0 <= k < |ops| && ops[k].InsertOp? ==> ops[k].row.instrument < t.live.Length
    modifies t, t.index, t.rows, t.live, t.openBuy, t.openSell
    ensures t.Valid()
    ensures var m := MapAfter(t.rows.Length, ops);
            |t.contents| == |m| && forall id :: Lookup(t.contents, id) == if id in m then Some(m[id]) else None
  {
    hide OrderTable.Valid, Agrees, Lookup;
    assert Agrees([], map[]) by { EmptyAgrees(); }
    assert ops[..0] == [];
    for k := 0 to |ops|
      invariant t.Valid() && Agrees(t.contents, MapAfter(t.rows.Length, ops[..k]))
    {
      assert ops[..k + 1][..k] == ops[..k];
      Apply(t, MapAfter(t.rows.Length, ops[..k]), ops[k]);
    }
    assert ops[..|ops|] == ops;
    ghost var m := MapAfter(t.rows.Length, ops);
    SameSize(t.contents, m);
    forall id: nat
      ensures Lookup(t.contents, id) == if id in m then Some(m[id]) else None
    {
      LookupIsMap(t.contents, m, id);
    }
  }

  lemma EmptyAgrees()
    ensures Agrees([], map[])
  {
  }
}
