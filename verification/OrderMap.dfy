/**
 Core's order map: an open-addressed hash from order reference to resting order.
 Erased slots keep their stale key; only `occupied` says whether a slot is live.
 */
module CoreOrderMap {
  import opened Common
  import opened Probing

  datatype OrderEntry = OrderEntry(price: nat, shares: nat, side: Side)

  datatype Slot = Slot(key: nat, entry: OrderEntry, occupied: bool)

  function CellOf(s: Slot): Cell {
    if s.occupied then Full(s.key) else Empty
  }

  class OrderMap {
    const slots: array<Slot>
    const hash: nat -> nat
    // The map the slots stand for; their probing view, in which stale keys are invisible;
    // and the slot of each live key.
    ghost var live: map<nat, OrderEntry>
    ghost var cells: seq<Cell>
    ghost var at: map<nat, nat>

    /** The slots agree with their probing view and hold the entries of the map. */
    ghost predicate Tied()
      reads this, slots
    {
      && |cells| == slots.Length
      && (forall i :: 0 <= i < slots.Length ==> cells[i] == CellOf(slots[i]))
      && (forall i :: 0 <= i < slots.Length && slots[i].occupied ==>
            slots[i].key in live && slots[i].entry == live[slots[i].key])
      && at.Keys == live.Keys
      && |live| < slots.Length
    }

    ghost predicate Valid()
      reads this, slots
    {
      Tied() && Reach(cells, hash) && Indexed(cells, at)
    }

    constructor (capacity: nat, hash: nat -> nat)
      requires 0 < capacity
      ensures Valid() && fresh(slots) && slots.Length == capacity && live == map[]
      ensures this.hash == hash
    {
      slots := new Slot[capacity](_ => Slot(0, OrderEntry(0, 0, Buy), false));
      this.hash := hash;
      live, at := map[], map[];
      cells := seq(capacity, _ => Empty);
    }

    method Find(key: nat) returns (p: Option<nat>)
      requires Valid()
      ensures p.Some? <==> key in live
      ensures p.Some? ==> p.value < slots.Length && slots[p.value] == Slot(key, live[key], true)
    {
      hide Settled, ReachBut, Mask, Dist;
      ghost var e := SomeEmpty(cells, at, live.Keys);
      ProbeStart(cells, hash, key);
      var pos: nat := hash(key);
      while true
        invariant Passed(cells, hash, key, Mask(pos, |cells|))
        decreases Dist(Mask(pos, |cells|), e, |cells|)
      {
        var i := Mask(pos, slots.Length);
        if !slots[i].occupied {
          EmptyMeansAbsent(cells, hash, at, key, i);
          return None;
        }
        if slots[i].key == key {
          return Some(i);
        }
        ProbeOn(cells, hash, key, pos, e);
        pos := pos + 1;
      }
    }

    method Insert(key: nat, price: nat, shares: nat, side: Side)
      requires Valid() && key !in live && |live| + 1 < slots.Length
      modifies this, slots
      ensures Valid() && live == old(live)[key := OrderEntry(price, shares, side)]
    {
      hide Settled, ReachBut, Mask, Dist, Indexed;
      ghost var e := SomeEmpty(cells, at, live.Keys);
      ProbeStart(cells, hash, key);
      var pos: nat := hash(key);
      while slots[Mask(pos, slots.Length)].occupied
        invariant Passed(cells, hash, key, Mask(pos, |cells|))
        modifies {}
        decreases Dist(Mask(pos, |cells|), e, |cells|)
      {
        ProbeOn(cells, hash, key, pos, e);
        pos := pos + 1;
      }
      var i := Mask(pos, slots.Length);
      InsertKeepsReach(cells, hash, at, key, i);
      slots[i] := Slot(key, OrderEntry(price, shares, side), true);
      cells := cells[i := Full(key)];
      live := live[key := OrderEntry(price, shares, side)];
      at := at[key := i];
    }

    /** Changes the shares of the entry that Find returned. */
    method SetShares(i: nat, shares: nat)
      requires Valid() && i < slots.Length && slots[i].occupied
      modifies this, slots
      ensures Valid()
      ensures var k := old(slots[i].key); k in old(live) && live == old(live)[k := old(live)[k].(shares := shares)]
    {
      hide ReachBut;
      var k := slots[i].key;
      assert cells[i] == Full(k) && at[k] == i;
      live := live[k := live[k].(shares := shares)];
      slots[i] := slots[i].(entry := slots[i].entry.(shares := shares));
      assert live.Keys == old(live.Keys);
    }

    /**
     Scans by key alone, so it would stop at a stale slot holding the key; for a live
     key it cannot, because every slot before the live one is occupied by another key.
     */
    method Erase(key: nat)
      requires Valid() && key in live
      modifies this, slots
      ensures Valid() && live == old(live) - {key} && |live| + 1 < slots.Length
    {
      hide Settled, ReachBut, Mask, Dist, Indexed;
      ghost var e := SomeEmpty(cells, at, live.Keys);
      SlotOf(cells, at, key);
      ghost var j := at[key];
      ScanStart(hash(key), j, |cells|);
      var pos: nat := hash(key);
      while slots[Mask(pos, slots.Length)].key != key
        invariant Mask(pos, |cells|) == j || OnPath(Home(hash, key, |cells|), Mask(pos, |cells|), j, |cells|)
        modifies {}
        decreases Dist(Mask(pos, |cells|), j, |cells|)
      {
        ScanOn(Home(hash, key, |cells|), pos, j, |cells|);
        pos := pos + 1;
      }
      var h := Mask(pos, slots.Length);
      assert h == j by {
        if h != j { BeforeOwnSlot(cells, hash, at, key, h); }
      }
      OpenHole(cells, hash, at, key, e);
      slots[h] := slots[h].(occupied := false);
      live, at, cells := live - {key}, at - {key}, cells[h := Empty];
      assert live.Keys == at.Keys && |live| + 1 == |old(live)| by { assert live.Keys == old(live.Keys) - {key}; }
      ShiftBack(pos, e);
    }

    /** The second half of Erase: close the hole by shifting back the entries that need it. */
    method ShiftBack(hole0: nat, ghost e: nat)
      requires Tied() && |live| + 1 < slots.Length
      requires Shifting(cells, hash, at, Mask(hole0, |cells|), Next(Mask(hole0, |cells|), |cells|), e)
      modifies this`at, this`cells, slots
      ensures Valid()
    {
      hide Settled, ReachBut, Mask, Dist, Indexed;
      var hole: nat, pos: nat := hole0, hole0 + 1;
      MaskedStep(hole0, |cells|);
      while true
        invariant Tied() && Shifting(cells, hash, at, Mask(hole, |cells|), Mask(pos, |cells|), e)
        decreases Dist(Mask(pos, |cells|), e, |cells|)
      {
        var i := Mask(pos, slots.Length);
        var s := slots[i];
        var h := Mask(hole, slots.Length);
        if !s.occupied {
          CloseHole(cells, hash, h, i);
          return;
        }
        var home: nat := hash(s.key);
        ShiftTestsAgree(home, hole, pos, |cells|);
        StepCloser(pos, e, |cells|);
        MaskedStep(pos, |cells|);
        if Mask(pos - home, slots.Length) > Mask(hole - home, slots.Length) {
          ShiftStep(cells, hash, at, h, i, e);
          slots[h] := s;
          slots[i] := s.(occupied := false);
          cells := cells[h := cells[i]][i := Empty];
          at := at[s.key := h];
          hole := pos;
        } else {
          SkipStep(cells, hash, at, h, i, e);
        }
        pos := pos + 1;
      }
    }
  }
}
