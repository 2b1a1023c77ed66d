/** Order rows, requests and reports of the exec engine, and sums over the live rows. */
module OrderTypes {
  import opened Common

  const COUNTER_IDS: nat := 0x100_0000_0000  // 2^40 ids in a generation

  datatype Tif = GTC | IOC | FOK | PostOnly
  datatype OrdType = Limit | Market
  datatype OrdStatus = PendingNew | New | PartiallyFilled | FullyFilled

  // pendingCancel and pendingReplace are the two PendingBits; newPx and newQty are the replace in flight.
  datatype OrderRow = OrderRow(id: nat, px: int, qty: int, leaves: int, cum: int, newPx: int, newQty: int,
                               instrument: nat, side: Side, tif: Tif, ordType: OrdType, status: OrdStatus,
                               pendingCancel: bool, pendingReplace: bool, tSubmit: int, tAck: int)

  /** Removing a row from the dense array: the last row takes its place. */
  function SwapRemove(rows: seq<OrderRow>, i: nat): (r: seq<OrderRow>)
    requires i < |rows|
    ensures |r| == |rows| - 1
  {
    rows[i := rows[|rows| - 1]][..|rows| - 1]
  }

  /** Position of the row with this id. */
  function FindRow(rows: seq<OrderRow>, id: nat): (p: Option<nat>)
    ensures p.Some? ==> p.value < |rows| && rows[p.value].id == id
    ensures p.None? ==> forall i :: 0 <= i < |rows| ==> rows[i].id != id
  {
    if rows == [] then None
    else if rows[|rows| - 1].id == id then Some(|rows| - 1)
    else FindRow(rows[..|rows| - 1], id)
  }

  ghost predicate UniqueIds(rows: seq<OrderRow>) {
    forall i, j :: 0 <= i < j < |rows| ==> rows[i].id != rows[j].id
  }

  lemma UniqueAppend(rows: seq<OrderRow>, r: OrderRow)
    requires UniqueIds(rows)
    ensures UniqueIds(rows + [r]) <==> FindRow(rows, r.id).None?
  {
    if FindRow(rows, r.id).Some? {
      assert (rows + [r])[FindRow(rows, r.id).value].id == (rows + [r])[|rows|].id;
    }
  }

  lemma FindUnique(rows: seq<OrderRow>, i: nat)
    requires UniqueIds(rows) && i < |rows|
    ensures FindRow(rows, rows[i].id) == Some(i)
  {
  }

  lemma UniqueUpdate(rows: seq<OrderRow>, i: nat, r: OrderRow)
    requires UniqueIds(rows) && i < |rows| && r.id == rows[i].id
    ensures UniqueIds(rows[i := r])
  {
  }

  lemma FindAppend(rows: seq<OrderRow>, r: OrderRow)
    ensures forall id :: FindRow(rows + [r], id) == if id == r.id then Some(|rows|) else FindRow(rows, id)
  {
    assert (rows + [r])[..|rows|] == rows;
  }

  lemma {:induction false} FindUpdate(rows: seq<OrderRow>, i: nat, r: OrderRow)
    requires i < |rows| && r.id == rows[i].id
    ensures forall id :: FindRow(rows[i := r], id) == FindRow(rows, id)
  {
    var last := |rows| - 1;
    if i < last {
      FindUpdate(rows[..last], i, r);
      assert rows[i := r][..last] == rows[..last][i := r];
    } else {
      assert rows[i := r][..last] == rows[..last];
    }
  }

  lemma FindSwapRemove(rows: seq<OrderRow>, i: nat)
    requires UniqueIds(rows) && i < |rows|
    ensures UniqueIds(SwapRemove(rows, i))
    ensures forall id :: FindRow(SwapRemove(rows, i), id).Some? <==> FindRow(rows, id).Some? && id != rows[i].id
  {
    var rest := SwapRemove(rows, i);
    forall id
      ensures FindRow(rest, id).Some? <==> FindRow(rows, id).Some? && id != rows[i].id
    {
      if FindRow(rows, id).Some? && id != rows[i].id {
        var p := FindRow(rows, id).value;
        assert rest[if p == |rows| - 1 then i else p].id == id;
      }
    }
  }

  /** Sum over the rows of a quantity that each row contributes. */
  function SumRows(rows: seq<OrderRow>, w: OrderRow -> int): int {
    if rows == [] then 0 else SumRows(rows[..|rows| - 1], w) + w(rows[|rows| - 1])
  }

  function LotsOf(inst: nat, side: Side): OrderRow -> int {
    (r: OrderRow) => if r.instrument == inst && r.side == side then r.leaves else 0
  }

  function OneOf(inst: nat): OrderRow -> int {
    (r: OrderRow) => if r.instrument == inst then 1 else 0
  }

  lemma SumAppend(rows: seq<OrderRow>, r: OrderRow, w: OrderRow -> int)
    ensures SumRows(rows + [r], w) == SumRows(rows, w) + w(r)
  {
    assert (rows + [r])[..|rows|] == rows;
  }

  lemma {:induction false} SumUpdate(rows: seq<OrderRow>, i: nat, r: OrderRow, w: OrderRow -> int)
    requires i < |rows|
    ensures SumRows(rows[i := r], w) == SumRows(rows, w) - w(rows[i]) + w(r)
  {
    var last := |rows| - 1;
    if i == last {
      assert rows[i := r][..last] == rows[..last];
    } else {
      SumUpdate(rows[..last], i, r, w);
      assert rows[i := r][..last] == rows[..last][i := r];
    }
  }

  lemma SumSwapRemove(rows: seq<OrderRow>, i: nat, w: OrderRow -> int)
    requires i < |rows|
    ensures SumRows(SwapRemove(rows, i), w) == SumRows(rows, w) - w(rows[i])
  {
    SumUpdate(rows, i, rows[|rows| - 1], w);
  }

  lemma SumsAppend(rows: seq<OrderRow>, r: OrderRow)
    ensures forall k :: SumRows(rows + [r], OneOf(k)) == SumRows(rows, OneOf(k)) + (if k == r.instrument then 1 else 0)
    ensures forall k, s :: SumRows(rows + [r], LotsOf(k, s)) == SumRows(rows, LotsOf(k, s)) + LotsOf(k, s)(r)
  {
    forall k
      ensures SumRows(rows + [r], OneOf(k)) == SumRows(rows, OneOf(k)) + (if k == r.instrument then 1 else 0)
    {
      SumAppend(rows, r, OneOf(k));
    }
    forall k, s
      ensures SumRows(rows + [r], LotsOf(k, s)) == SumRows(rows, LotsOf(k, s)) + LotsOf(k, s)(r)
    {
      SumAppend(rows, r, LotsOf(k, s));
    }
  }

  lemma SumsSwapRemove(rows: seq<OrderRow>, i: nat)
    requires i < |rows|
    ensures forall k :: SumRows(SwapRemove(rows, i), OneOf(k))
                        == SumRows(rows, OneOf(k)) - (if k == rows[i].instrument then 1 else 0)
    ensures forall k, s :: SumRows(SwapRemove(rows, i), LotsOf(k, s))
                           == SumRows(rows, LotsOf(k, s)) + LotsOf(k, s)(rows[i].(leaves := -rows[i].leaves))
  {
    forall k
      ensures SumRows(SwapRemove(rows, i), OneOf(k))
              == SumRows(rows, OneOf(k)) - (if k == rows[i].instrument then 1 else 0)
    {
      SumSwapRemove(rows, i, OneOf(k));
    }
    forall k, s
      ensures SumRows(SwapRemove(rows, i), LotsOf(k, s))
              == SumRows(rows, LotsOf(k, s)) + LotsOf(k, s)(rows[i].(leaves := -rows[i].leaves))
    {
      SumSwapRemove(rows, i, LotsOf(k, s));
    }
  }

  lemma SumsUpdate(rows: seq<OrderRow>, i: nat, r: OrderRow)
    requires i < |rows| && r.instrument == rows[i].instrument && r.side == rows[i].side
    ensures forall k :: SumRows(rows[i := r], OneOf(k)) == SumRows(rows, OneOf(k))
    ensures forall k, s :: SumRows(rows[i := r], LotsOf(k, s))
                           == SumRows(rows, LotsOf(k, s)) + LotsOf(k, s)(r.(leaves := r.leaves - rows[i].leaves))
  {
    forall k
      ensures SumRows(rows[i := r], OneOf(k)) == SumRows(rows, OneOf(k))
    {
      SumUpdate(rows, i, r, OneOf(k));
    }
    forall k, s
      ensures SumRows(rows[i := r], LotsOf(k, s))
              == SumRows(rows, LotsOf(k, s)) + LotsOf(k, s)(r.(leaves := r.leaves - rows[i].leaves))
    {
      SumUpdate(rows, i, r, LotsOf(k, s));
    }
  }
}
