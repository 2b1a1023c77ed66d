/** One side's price levels: a dense array indexed by tick above the base, and its occupancy bitmap. */
module PriceLevels {
  import opened Common
  import opened LevelBitmap

  const TICK: nat := 100  // PRICE_TICK

  datatype PriceLevel = PriceLevel(totalShares: nat, orderCount: nat)

  /** Level index of a price, in uint32_t arithmetic. */
  function IndexOf(base: nat, price: nat): nat {
    U32(price - base) / TICK
  }

  predicate InRange(base: nat, maxLevels: nat, price: nat) {
    IndexOf(base, price) < maxLevels
  }

  /** The window of prices that the levels stand for. */
  predicate InWindow(base: nat, maxLevels: nat, price: nat) {
    base <= price < base + maxLevels * TICK
  }

  /**
   The single unsigned comparison of in_range is exact for every price just when the
   window does not reach past 2^32 (a zero base has nothing below it to mistake).
   */
  lemma InRangeExact(base: nat, maxLevels: nat)
    requires base < WORD32
    ensures (forall price :: 0 <= price < WORD32 ==>
               (InRange(base, maxLevels, price) <==> InWindow(base, maxLevels, price)))
            <==> base == 0 || base + maxLevels * TICK <= WORD32
  {
    forall price | 0 <= price < WORD32 && (base == 0 || base + maxLevels * TICK <= WORD32)
      ensures InRange(base, maxLevels, price) <==> InWindow(base, maxLevels, price)
    {
      InRangeAt(base, maxLevels, price);
    }
    if base > 0 && base + maxLevels * TICK > WORD32 {
      assert U32(0 - base) == WORD32 - base;
      assert InRange(base, maxLevels, 0) && !InWindow(base, maxLevels, 0);
    }
  }

  lemma InRangeAt(base: nat, maxLevels: nat, price: nat)
    requires base < WORD32 && price < WORD32
    requires base == 0 || base + maxLevels * TICK <= WORD32
    ensures InRange(base, maxLevels, price) <==> InWindow(base, maxLevels, price)
    ensures InRange(base, maxLevels, price) ==> IndexOf(base, price) == (price - base) / TICK
  {
    assert U32(price - base) == if price >= base then price - base else price - base + WORD32;
  }

  const LEVEL_COUNT: nat := 1048576

  /** At the program's own level count, a window past 2^32 admits the price 0, which lies below it. */
  lemma InRangeWraps()
    ensures InRange(4242538400, LEVEL_COUNT, 0) && !InWindow(4242538400, LEVEL_COUNT, 0)
  {
    assert U32(0 - 4242538400) == 52428896;
  }

  /** A price down to its tick. */
  function RoundDown(price: nat): (r: nat)
    ensures r % TICK == 0 && r <= price < r + TICK
  {
    price / TICK * TICK
  }

  class PriceLevelArray {
    const levels: array<PriceLevel>
    const occupied: OccupancyBitmap
    ghost const Repr: set<object>
    var base: nat
    ghost var model: seq<PriceLevel>

    ghost predicate Valid()
      reads this, Repr
    {
      && {this, levels, occupied} <= Repr && occupied.Repr <= Repr
      && this !in occupied.Repr && levels !in occupied.Repr
      && occupied.Valid() && occupied.nbits == levels.Length == |model|
      && (forall i :: 0 <= i < |model| ==> levels[i] == model[i])
      && base % TICK == 0 && base + |model| * TICK <= WORD32
    }

    constructor (maxLevels: nat)
      requires maxLevels * TICK <= WORD32
      ensures Valid() && fresh(Repr) && |model| == maxLevels && base == 0
      ensures occupied.bits == {} && forall i :: 0 <= i < |model| ==> model[i] == PriceLevel(0, 0)
    {
      var ls := new PriceLevel[maxLevels](_ => PriceLevel(0, 0));
      var occ := new OccupancyBitmap(maxLevels);
      levels, occupied := ls, occ;
      Repr := {this, ls, occ} + occ.Repr;
      base := 0;
      model := seq(maxLevels, _ => PriceLevel(0, 0));
    }

    method Init(basePrice: nat)
      requires Valid() && RoundDown(basePrice) + |model| * TICK <= WORD32
      modifies Repr
      ensures Valid() && base == RoundDown(basePrice) && |model| == old(|model|)
      ensures occupied.bits == {} && forall i :: 0 <= i < |model| ==> model[i] == PriceLevel(0, 0)
    {
      base := RoundDown(basePrice);
      for i := 0 to levels.Length
        invariant forall k :: 0 <= k < i ==> levels[k] == PriceLevel(0, 0)
        modifies levels
      {
        levels[i] := PriceLevel(0, 0);
      }
      occupied.Reset();
      model := seq(|model|, _ => PriceLevel(0, 0));
    }

    /** Whether the price has a level here. */
    predicate Covers(price: nat)
      requires Valid()
      reads this, Repr
      ensures Covers(price) <==> InRange(base, |model|, price)
    {
      InRange(base, levels.Length, price)
    }

    /** One order more on a level, which is marked when it was empty. */
    method AddOrder(price: nat, shares: nat)
      requires Valid() && InRange(base, |model|, price)
      modifies Repr
      ensures Valid() && base == old(base) && |model| == old(|model|)
      ensures var i := IndexOf(base, price);
              && model == old(model)[i := PriceLevel(U32(old(model)[i].totalShares + shares),
                                                U32(old(model)[i].orderCount + 1))]
              && occupied.bits == old(occupied.bits) + if old(model)[i].orderCount == 0 then {i} else {}
    {
      var i := IndexOf(base, price);
      var was := levels[i].orderCount;
      levels[i] := PriceLevel(U32(levels[i].totalShares + shares), U32(was + 1));
      model := model[i := levels[i]];
      if was == 0 {
        occupied.Set(i);
      }
    }

    /** Takes shares, and orders that are gone, off a level; returns the orders left. */
    method Take(price: nat, shares: nat, gone: nat) returns (count: nat)
      requires Valid() && InRange(base, |model|, price)
      modifies Repr
      ensures Valid() && base == old(base) && occupied.bits == old(occupied.bits) && |model| == old(|model|)
      ensures var i := IndexOf(base, price);
              && count == U32(old(model)[i].orderCount - gone)
              && model == old(model)[i := PriceLevel(U32(old(model)[i].totalShares - shares),
                                                U32(old(model)[i].orderCount - gone))]
    {
      var i := IndexOf(base, price);
      levels[i] := PriceLevel(U32(levels[i].totalShares - shares), U32(levels[i].orderCount - gone));
      model := model[i := levels[i]];
      count := levels[i].orderCount;
    }

    function At(price: nat): (l: PriceLevel)
      requires Valid() && InRange(base, |model|, price)
      reads this, Repr
      ensures l == model[IndexOf(base, price)]
    {
      levels[IndexOf(base, price)]
    }

    method MarkEmpty(price: nat)
      requires Valid() && InRange(base, |model|, price)
      modifies Repr
      ensures Valid() && base == old(base) && model == old(model)
      ensures occupied.bits == old(occupied.bits) - {IndexOf(base, price)}
    {
      occupied.Clear(IndexOf(base, price));
    }

    /** Nearest occupied level strictly above the price; 0 when there is none. */
    function NextOccupiedAbove(price: nat): (p: nat)
      requires Valid() && InRange(base, |model|, price)
      reads this, Repr
      ensures p == 0 || exists i :: i in occupied.bits && i > IndexOf(base, price) && p == base + i * TICK
      ensures forall i :: i in occupied.bits && i > IndexOf(base, price) ==> 0 < p <= base + i * TICK
    {
      var i := occupied.NextSet(IndexOf(base, price) + 1);
      if i == NPOS then 0 else base + i * TICK
    }

    /** Nearest occupied level strictly below the price; 0 when there is none. */
    function PrevOccupiedBelow(price: nat): (p: nat)
      requires Valid() && InRange(base, |model|, price)
      reads this, Repr
      ensures p == 0 || exists i :: i in occupied.bits && i < IndexOf(base, price) && p == base + i * TICK
      ensures forall i :: i in occupied.bits && i < IndexOf(base, price) ==> base + i * TICK <= p
    {
      var idx := IndexOf(base, price);
      if idx == 0 then 0 else
      var i := occupied.PrevSet(idx - 1);
      if i == NPOS then 0 else base + i * TICK
    }
  }
}
