/**
 Exec's table of live orders: dense rows with swap-remove, an open-addressed index
 from id to row with its own form of backward-shift erase, and per-instrument sums.
 */
module ExecOrderTable {
  import opened Common
  import opened Probing
  import opened OrderTypes

  // Key 0 is an empty slot: INVALID_ORDER is never inserted.
  datatype IndexSlot = IndexSlot(key: nat, pos: nat)

  const INVALID_ORDER: nat := 0
  const GENERATIONS: nat := 0x100_0000       // 2^24

  function CellOf(s: IndexSlot): Cell {
    if s.key == 0 then Empty else Full(s.key)
  }

  class OrderTable {
    const index: array<IndexSlot>
    const rows: array<OrderRow>
    const live: array<int>
    const openBuy: array<int>
    const openSell: array<int>
    const hash: nat -> nat
    var n: nat
    var gen: nat
    var counter: nat
    // The live rows in dense order, the probing view of the index, and the slot of each id.
    ghost var contents: seq<OrderRow>
    ghost var cells: seq<Cell>
    ghost var at: map<nat, nat>

    ghost function Repr(): set<object> {
      {this, index, rows, live, openBuy, openSell}
    }

    /** The arrays are separate objects, and the load factor of the index is at most one half. */
    ghost predicate Shape() {
      && 0 < rows.Length && 2 * rows.Length <= index.Length
      && live.Length == openBuy.Length == openSell.Length
      && live != openBuy && live != openSell && openBuy != openSell
    }

    ghost predicate Stored()
      reads this, rows
    {
      && n == |contents| <= rows.Length
      && (forall i :: 0 <= i < n ==> rows[i] == contents[i])
      && (forall i :: 0 <= i < n ==> contents[i].id != INVALID_ORDER && contents[i].instrument < live.Length)
      && UniqueIds(contents)
    }

    /** The probing view agrees with every slot but the hole. */
    ghost predicate Viewed(hole: int)
      reads this, index
    {
      && |cells| == index.Length
      && forall s :: 0 <= s < index.Length && s != hole ==> cells[s] == CellOf(index[s])
    }

    /** Every slot in use, the hole excepted, points at the row with its key. */
    ghost predicate Pointed(hole: int)
      reads this, index
    {
      forall s :: 0 <= s < index.Length && s != hole && index[s].key != 0 ==>
        index[s].pos < |contents| && contents[index[s].pos].id == index[s].key
    }

    /** The stored keys are the ids of the rows. */
    ghost predicate Keyed()
      reads this
    {
      && (forall i :: 0 <= i < |contents| ==> contents[i].id in at)
      && (forall id :: id in at ==> FindRow(contents, id).Some?)
    }

    /** What a probe of the index relies on. */
    ghost predicate Probeable()
      reads this, index
    {
      && Viewed(-1) && Reach(cells, hash) && Indexed(cells, at) && INVALID_ORDER !in at
      && exists e :: 0 <= e < |cells| && cells[e].Empty?
    }

    ghost predicate Summed()
      reads this, live, openBuy, openSell
      requires Shape()
    {
      forall k :: 0 <= k < live.Length ==>
        && live[k] == SumRows(contents, OneOf(k))
        && openBuy[k] == SumRows(contents, LotsOf(k, Buy))
        && openSell[k] == SumRows(contents, LotsOf(k, Sell))
    }

    ghost predicate Valid()
      reads Repr()
    {
      Shape() && Stored() && Summed() && Probeable() && Pointed(-1) && Keyed()
    }

    constructor (maxRows: nat, indexSlots: nat, instruments: nat, hash: nat -> nat)
      requires 0 < maxRows && 2 * maxRows <= indexSlots
      ensures Valid() && fresh(index) && fresh(rows) && fresh(live) && fresh(openBuy) && fresh(openSell)
      ensures contents == [] && rows.Length == maxRows && live.Length == instruments && counter == 0 && gen == 0
    {
      index := new IndexSlot[indexSlots](_ => IndexSlot(0, 0));
      var none := OrderRow(0, 0, 0, 0, 0, 0, 0, 0, Buy, GTC, Limit, PendingNew, false, false, 0, 0);
      rows := new OrderRow[maxRows](_ => none);
      live := new int[instruments](_ => 0);
      openBuy := new int[instruments](_ => 0);
      openSell := new int[instruments](_ => 0);
      this.hash := hash;
      n, gen, counter := 0, 0, 0;
      contents, at := [], map[];
      cells := seq(indexSlots, _ => Empty);
      new;
      EmptyTable(cells, hash);
      assert cells[0].Empty?;
    }

    method SetGeneration(g: nat)
      requires Valid()
      modifies this`gen
      ensures Valid() && gen == g % GENERATIONS
    {
      gen := g % GENERATIONS;
    }

    method NextId() returns (id: nat)
      requires Valid()
      modifies this`counter
      ensures Valid() && counter == old(counter) + 1
      ensures id == gen * COUNTER_IDS + counter % COUNTER_IDS
    {
      counter := counter + 1;
      id := gen * COUNTER_IDS + counter % COUNTER_IDS;
    }

    method SlotOf(id: nat) returns (s: Option<nat>)
      requires Probeable()
      ensures s.Some? <==> id in at
      ensures s.Some? ==> s.value == at[id] && s.value < index.Length && index[s.value].key == id
      ensures s.Some? ==> forall t :: 0 <= t < index.Length && index[t].key == id ==> t == s.value
    {
      hide Settled, ReachBut, Mask, Dist;
      ghost var e :| 0 <= e < |cells| && cells[e].Empty?;
      ProbeStart(cells, hash, id);
      var pos: nat := hash(id);
      while true
        invariant Passed(cells, hash, id, Mask(pos, |cells|))
        decreases Dist(Mask(pos, |cells|), e, |cells|)
      {
        var i := Mask(pos, index.Length);
        if index[i].key == 0 {
          EmptyMeansAbsent(cells, hash, at, id, i);
          return None;
        }
        if index[i].key == id {
          return Some(i);
        }
        ProbeOn(cells, hash, id, pos, e);
        pos := pos + 1;
      }
    }

    /** Position of the live row with this id. */
    method Find(id: nat) returns (p: Option<nat>)
      requires Valid()
      ensures Valid() && p == FindRow(contents, id)
    {
      hide ReachBut, FindRow, Indexed;
      var s := SlotOf(id);
      if s == None {
        return None;
      }
      FindUnique(contents, index[s.value].pos);
      return Some(index[s.value].pos);
    }

    /** Rows are at most half the slots, so an insertion leaves an empty slot. */
    lemma TwoEmpty()
      requires Shape() && n < rows.Length && n == |contents| && Probeable() && Pointed(-1)
      ensures exists e, f :: 0 <= e < f < |cells| && cells[e].Empty? && cells[f].Empty?
    {
      hide ReachBut, Indexed;
      var e :| 0 <= e < |cells| && cells[e].Empty?;
      if forall i :: 0 <= i < |cells| && i != e ==> cells[i].Full? {
        var slots, m := index[..], n;
        var ps := seq(|slots|, i requires 0 <= i < |slots| => if i == e then m else slots[i].pos);
        assert forall i :: 0 <= i < |slots| && i != e ==> cells[i] == CellOf(index[i]) && ps[i] == index[i].pos < m;
        assert forall i, j :: 0 <= i < j < |ps| ==> ps[i] != ps[j] by { DistinctKeys(); }
        DistinctFit(ps, Below(n + 1));
      }
    }

    lemma DistinctKeys()
      requires Probeable()
      ensures forall i, j :: 0 <= i < j < index.Length && index[i].key != 0 ==> index[i].key != index[j].key
    {
      hide ReachBut;
      assert forall i :: 0 <= i < index.Length && index[i].key != 0 ==> cells[i] == Full(index[i].key);
    }

    /** Refuses a full table, the invalid id and an id already present. */
    method Insert(r: OrderRow) returns (ok: bool)
      requires Valid() && r.instrument < live.Length
      modifies this`n, this`contents, this`cells, this`at, index, rows, live, openBuy, openSell
      ensures Valid()
      ensures ok <==> old(|contents|) < rows.Length && r.id != INVALID_ORDER && FindRow(old(contents), r.id).None?
      ensures contents == if ok then old(contents) + [r] else old(contents)
    {
      hide ReachBut, Indexed, SumRows, LotsOf, OneOf, UniqueIds, FindRow;
      var s := SlotOf(r.id);
      if n == rows.Length || r.id == INVALID_ORDER || s.Some? {
        return false;
      }
      IndexNew(r.id);
      FindAppend(contents, r);
      AppendRow(r);
      return true;
    }

    /** The index half of Insert: the id's slot points at the row about to be appended. */
    method IndexNew(id: nat)
      requires Shape() && n < rows.Length && n == |contents| && Probeable() && Pointed(-1)
      requires id != INVALID_ORDER && id !in at
      modifies this`cells, this`at, index
      ensures Probeable() && at.Keys == old(at).Keys + {id}
      ensures forall s :: 0 <= s < index.Length ==> index[s] == old(index[s]) || index[s] == IndexSlot(id, n)
    {
      hide ReachBut, Indexed;
      TwoEmpty();
      ghost var e, f :| 0 <= e < f < |cells| && cells[e].Empty? && cells[f].Empty?;
      var i := FreeSlot(id);
      index[i] := IndexSlot(id, n);
      cells, at := cells[i := Full(id)], at[id := i];
      assert cells[if i == e then f else e].Empty?;
    }

    /** The probe of an insertion: the first empty slot from the id's home. */
    method FreeSlot(id: nat) returns (i: nat)
      requires Probeable() && id != INVALID_ORDER && id !in at
      ensures i < index.Length && index[i].key == 0
      ensures Reach(cells[i := Full(id)], hash) && Indexed(cells[i := Full(id)], at[id := i])
    {
      hide Settled, ReachBut, Mask, Dist, Indexed;
      ghost var e :| 0 <= e < |cells| && cells[e].Empty?;
      ProbeStart(cells, hash, id);
      var pos: nat := hash(id);
      while index[Mask(pos, index.Length)].key != 0
        invariant Passed(cells, hash, id, Mask(pos, |cells|))
        decreases Dist(Mask(pos, |cells|), e, |cells|)
      {
        NotStored(id, Mask(pos, |cells|));
        ProbeOn(cells, hash, id, pos, e);
        pos := pos + 1;
      }
      i := Mask(pos, index.Length);
      InsertKeepsReach(cells, hash, at, id, i);
    }

    lemma NotStored(id: nat, i: nat)
      requires Probeable() && id !in at && i < |cells|
      ensures cells[i] != Full(id)
    {
      hide ReachBut;
    }

    /** The dense half of Insert: the new row and the sums of its instrument. */
    method AppendRow(r: OrderRow)
      requires Shape() && Stored() && Summed() && n < rows.Length
      requires r.instrument < live.Length && r.id != INVALID_ORDER && FindRow(contents, r.id).None?
      modifies this`n, this`contents, rows, live, openBuy, openSell
      ensures Stored() && Summed() && contents == old(contents) + [r]
    {
      hide SumRows, LotsOf, OneOf, UniqueIds, FindRow;
      UniqueAppend(contents, r);
      SumsAppend(contents, r);
      rows[n] := r;
      AddOpen(r, r.leaves);
      live[r.instrument] := live[r.instrument] + 1;
      contents := contents + [r];
      n := n + 1;
    }

    method AddOpen(r: OrderRow, delta: int)
      requires Shape() && r.instrument < live.Length
      modifies openBuy, openSell
      ensures forall k :: 0 <= k < live.Length ==>
                openBuy[k] == old(openBuy[k]) + LotsOf(k, Buy)(r.(leaves := delta))
      ensures forall k :: 0 <= k < live.Length ==>
                openSell[k] == old(openSell[k]) + LotsOf(k, Sell)(r.(leaves := delta))
    {
      if r.side == Buy {
        openBuy[r.instrument] := openBuy[r.instrument] + delta;
      } else {
        openSell[r.instrument] := openSell[r.instrument] + delta;
      }
    }

    method Erase(id: nat)
      requires Valid()
      modifies this`n, this`contents, this`cells, this`at, index, rows, live, openBuy, openSell
      ensures Valid()
      ensures var p := FindRow(old(contents), id);
              contents == if p.Some? then SwapRemove(old(contents), p.value) else old(contents)
    {
      hide ReachBut, Indexed, SumRows, LotsOf, OneOf, UniqueIds, FindRow, Displaced;
      var s := SlotOf(id);
      if s == None {
        return;
      }
      var pos := index[s.value].pos;
      FindUnique(contents, pos);
      FindSwapRemove(contents, pos);
      RemovalDisplaces(s.value);
      ghost var slots := index[..];
      DropRow(pos);
      assert index[..] == slots;
      Reindex(pos, s.value, id);
    }

    /** Repoints the moved row's entry, then takes the erased id out of the index. */
    method Reindex(pos: nat, hole: nat, ghost id: nat)
      requires Probeable() && Stored() && Shape() && Summed() && pos <= n && id in at && at[id] == hole < index.Length
      requires Displaced(index[..], contents, pos, hole)
      requires forall i :: 0 <= i < |contents| ==> contents[i].id in at && contents[i].id != id
      requires forall k :: k in at && k != id ==> FindRow(contents, k).Some?
      modifies this`cells, this`at, index
      ensures Probeable() && Pointed(-1) && Keyed() && Stored() && Summed()
    {
      hide ReachBut, Indexed, SumRows, LotsOf, OneOf, UniqueIds, FindRow, Displaced;
      Repoint(pos, hole);
      Unindex(hole, id);
    }

    lemma RemovalDisplaces(hole: nat)
      requires Valid() && hole < index.Length && index[hole].key != 0
      ensures Displaced(index[..], SwapRemove(contents, index[hole].pos), index[hole].pos, hole)
    {
      hide ReachBut, Indexed, SumRows, LotsOf, OneOf, FindRow;
      DistinctKeys();
    }

    /** Points the index entry of the row that the swap-remove moved at its new position. */
    method Repoint(pos: nat, ghost hole: nat)
      requires Probeable() && Stored() && pos <= n && hole < index.Length
      requires Displaced(index[..], contents, pos, hole)
      requires pos < n ==> contents[pos].id in at
      modifies index
      ensures Probeable() && Pointed(hole)
    {
      hide ReachBut, Indexed, UniqueIds;
      if pos != n {
        var moved := SlotOf(rows[pos].id);
        index[moved.value] := index[moved.value].(pos := pos);
      }
    }

    /** The dense half of Erase: the sums of the instrument and the swap-remove. */
    method DropRow(pos: nat)
      requires Shape() && Stored() && Summed() && pos < n
      modifies this`n, this`contents, rows, live, openBuy, openSell
      ensures Stored() && Summed() && contents == SwapRemove(old(contents), pos)
    {
      hide SumRows, LotsOf, OneOf, FindRow, UniqueIds;
      SumsSwapRemove(contents, pos);
      FindSwapRemove(contents, pos);
      AddOpen(rows[pos], -rows[pos].leaves);
      live[rows[pos].instrument] := live[rows[pos].instrument] - 1;
      n := n - 1;
      if pos != n {
        rows[pos] := rows[n];
      }
      contents := SwapRemove(contents, pos);
    }

    /** The index half of Erase. */
    method Unindex(hole: nat, ghost id: nat)
      requires Probeable() && Pointed(hole) && id in at && at[id] == hole
      requires forall i :: 0 <= i < |contents| ==> contents[i].id in at && contents[i].id != id
      requires forall k :: k in at && k != id ==> FindRow(contents, k).Some?
      modifies this`cells, this`at, index
      ensures Probeable() && Pointed(-1) && Keyed()
    {
      hide ReachBut, Indexed, FindRow;
      ghost var e :| 0 <= e < |cells| && cells[e].Empty?;
      OpenHole(cells, hash, at, id, e);
      cells, at := cells[hole := Empty], at - {id};
      ShiftBack(hole, e);
    }

    /** Closes the hole. It keeps its old entry until the scan has stopped. */
    method ShiftBack(hole0: nat, ghost e: nat)
      requires hole0 < index.Length && Viewed(hole0) && Pointed(hole0) && Keyed() && INVALID_ORDER !in at
      requires Shifting(cells, hash, at, hole0, Next(hole0, |cells|), e)
      modifies this`cells, this`at, index
      ensures Probeable() && Pointed(-1) && Keyed()
    {
      hide Settled, ReachBut, Mask, Dist, Indexed, FindRow;
      var hole: nat := hole0;
      MaskedStep(hole0, |cells|);
      MaskSmall(hole0, |cells|);
      var i: nat := Mask(hole0 + 1, index.Length);
      while index[i].key != 0
        invariant hole < |cells| && i < |cells| && Viewed(hole) && Pointed(hole) && Keyed() && INVALID_ORDER !in at
        invariant Shifting(cells, hash, at, hole, i, e)
        decreases Dist(i, e, |cells|)
      {
        MaskSmall(i, |cells|);
        MaskSmall(hole, |cells|);
        StepCloser(i, e, |cells|);
        MaskedStep(i, |cells|);
        var home := Mask(hash(index[i].key), index.Length);
        MaskSmall(home, |cells|);
        ShiftTestsAgree(home, hole, i, |cells|);
        if Mask(i - home, index.Length) >= Mask(i - hole, index.Length) {
          ShiftStep(cells, hash, at, hole, i, e);
          index[hole] := index[i];
          cells, at := cells[hole := cells[i]][i := Empty], at[index[i].key := hole];
          hole := i;
        } else {
          SkipStep(cells, hash, at, hole, i, e);
        }
        i := Mask(i + 1, index.Length);
      }
      CloseHole(cells, hash, hole, i);
      index[hole] := IndexSlot(0, 0);
    }

    /** New leaves for a row; its side's open lots move by the difference. */
    method SetLeaves(i: nat, leaves: int)
      requires Valid() && i < n
      modifies this`contents, rows, openBuy, openSell
      ensures Valid() && contents == old(contents)[i := old(contents)[i].(leaves := leaves)]
    {
      hide Reach, Indexed, FindRow, UniqueIds, Summed;
      FindUpdate(contents, i, rows[i].(leaves := leaves));
      RewriteLeaves(i, leaves);
    }

    /** The dense half of SetLeaves. */
    method RewriteLeaves(i: nat, leaves: int)
      requires Shape() && Stored() && Summed() && i < n
      modifies this`contents, rows, openBuy, openSell
      ensures Stored() && Summed() && contents == old(contents)[i := old(contents)[i].(leaves := leaves)]
    {
      hide SumRows, LotsOf, OneOf, FindRow, UniqueIds;
      var r := rows[i].(leaves := leaves);
      UniqueUpdate(contents, i, r);
      SumsUpdate(contents, i, r);
      AddOpen(rows[i], leaves - rows[i].leaves);
      rows[i] := r;
      contents := contents[i := r];
    }

    /** Writes the other fields of a row through a pointer that find returned. */
    method SetRow(i: nat, r: OrderRow)
      requires Valid() && i < n
      requires var q := contents[i];
               r.id == q.id && r.instrument == q.instrument && r.side == q.side && r.leaves == q.leaves
      modifies this`contents, rows
      ensures Valid() && contents == old(contents)[i := r]
    {
      hide ReachBut, Indexed, SumRows, FindRow, UniqueIds;
      UniqueUpdate(contents, i, r);
      SumsUpdate(contents, i, r);
      FindUpdate(contents, i, r);
      rows[i] := r;
      contents := contents[i := r];
    }
  }

  /** After a swap-remove at pos, entries still point at their rows, but for the hole and the moved row's own. */
  ghost predicate Displaced(index: seq<IndexSlot>, rows: seq<OrderRow>, pos: nat, hole: nat) {
    forall s :: 0 <= s < |index| && s != hole && index[s].key != 0 ==>
      var p := index[s].pos;
      if p == |rows| then pos < |rows| && rows[pos].id == index[s].key
      else p < |rows| && p != pos && rows[p].id == index[s].key
  }

  lemma EmptyTable(c: seq<Cell>, hash: nat -> nat)
    requires forall i :: 0 <= i < |c| ==> c[i].Empty?
    ensures Reach(c, hash) && Indexed(c, map[])
  {
  }

  ghost function Below(n: nat): (s: set<nat>)
    ensures |s| == n && forall p :: p in s <==> 0 <= p < n
  {
    if n == 0 then {} else Below(n - 1) + {n - 1}
  }
}
