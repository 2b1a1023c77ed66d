/**
 The abstract order book - a map from order reference to resting order - and what the
 levels, occupancy bits and cached top of book must be for it.
 */
module BookSpec {
  import opened Common
  import opened CoreOrderMap
  import opened PriceLevels

  type Orders = map<nat, OrderEntry>

  const NO_BID: nat := 0
  const NO_ASK: nat := 0xFFFF_FFFF  // UINT32_MAX

  /** Sum over the resting orders of a quantity that each contributes. */
  ghost function SumOver(m: Orders, w: OrderEntry -> int): int {
    if m == map[] then 0
    else
      var k :| k in m;
      w(m[k]) + SumOver(m - {k}, w)
  }

  /** The order rests on a side's level; a level holds the prices from its tick up to the next. */
  predicate RestsAt(e: OrderEntry, s: Side, level: nat) {
    e.side == s && RoundDown(e.price) == level
  }

  function OneAt(s: Side, level: nat): OrderEntry -> int {
    (e: OrderEntry) => if RestsAt(e, s, level) then 1 else 0
  }

  function SharesAt(s: Side, level: nat): OrderEntry -> int {
    (e: OrderEntry) => if RestsAt(e, s, level) then e.shares else 0
  }

  lemma {:induction false} SumRemove(m: Orders, k: nat, w: OrderEntry -> int)
    requires k in m
    ensures SumOver(m, w) == SumOver(m - {k}, w) + w(m[k])
  {
    var p :| p in m && SumOver(m, w) == w(m[p]) + SumOver(m - {p}, w);
    if p != k {
      SumRemove(m - {p}, k, w);
      SumRemove(m - {k}, p, w);
      assert m - {p} - {k} == m - {k} - {p};
    }
  }

  lemma SumInsert(m: Orders, k: nat, e: OrderEntry, w: OrderEntry -> int)
    requires k !in m
    ensures SumOver(m[k := e], w) == SumOver(m, w) + w(e)
  {
    SumRemove(m[k := e], k, w);
    assert m[k := e] - {k} == m;
  }

  /** The references resting on a side's level. */
  function RefsAt(m: Orders, s: Side, level: nat): set<nat> {
    set k | k in m && RestsAt(m[k], s, level)
  }

  /** Counting by weights of one is counting the orders on the level. */
  lemma {:induction false} CountIsCardinality(m: Orders, s: Side, price: nat)
    ensures SumOver(m, OneAt(s, price)) == |RefsAt(m, s, price)|
  {
    hide RefsAt;
    if m == map[] {
      EmptyRefs(s, price);
    } else {
      var k :| k in m;
      var rest := m - {k};
      SumRemove(m, k, OneAt(s, price));
      CountIsCardinality(rest, s, price);
      RefsRemove(m, k, s, price);
    }
  }

  lemma EmptyRefs(s: Side, price: nat)
    ensures RefsAt(map[], s, price) == {}
  {
  }

  lemma RefsRemove(m: Orders, k: nat, s: Side, price: nat)
    requires k in m
    ensures |RefsAt(m, s, price)| == |RefsAt(m - {k}, s, price)| + OneAt(s, price)(m[k])
  {
    if RestsAt(m[k], s, price) {
      assert RefsAt(m, s, price) == RefsAt(m - {k}, s, price) + {k};
    } else {
      assert RefsAt(m, s, price) == RefsAt(m - {k}, s, price);
    }
  }

  /** What a level must show: the orders at its price, counted and summed in uint32_t. */
  ghost function LevelFor(m: Orders, s: Side, price: nat): PriceLevel {
    PriceLevel(U32(SumOver(m, SharesAt(s, price))), U32(SumOver(m, OneAt(s, price))))
  }

  ghost predicate LevelsMatch(levels: seq<PriceLevel>, m: Orders, s: Side, base: nat) {
    forall i :: 0 <= i < |levels| ==> levels[i] == LevelFor(m, s, base + i * TICK)
  }

  /** A level's bit is set iff it has orders; a stale level's bit has yet to be cleared. */
  ghost predicate BitsMatch(levels: seq<PriceLevel>, bits: set<nat>, stale: int) {
    forall i :: i in bits <==> 0 <= i < |levels| && (levels[i].orderCount > 0 || i == stale)
  }

  /** The cached best price is that of the best set bit, or the side's empty sentinel. */
  ghost predicate TopMatches(s: Side, base: nat, bits: set<nat>, best: nat) {
    if s == Buy then
      && (forall i :: i in bits ==> base + i * TICK <= best)
      && (best == NO_BID || exists i :: i in bits && best == base + i * TICK)
    else
      && (forall i :: i in bits ==> best <= base + i * TICK)
      && (best == NO_ASK || exists i :: i in bits && best == base + i * TICK)
  }

  datatype SideView = SideView(levels: seq<PriceLevel>, bits: set<nat>, best: nat)

  // One value for everything the book holds.
  datatype BookView = BookView(base: nat, orders: Orders, bid: SideView, ask: SideView)

  /** A side's levels and bits show the orders. */
  ghost predicate SideOk(s: Side, base: nat, m: Orders, v: SideView, stale: int) {
    LevelsMatch(v.levels, m, s, base) && BitsMatch(v.levels, v.bits, stale)
  }

  /** Inside the window; shares are uint32_t. */
  predicate Placed(e: OrderEntry, base: nat, maxLevels: nat) {
    InWindow(base, maxLevels, e.price) && e.shares < WORD32
  }

  ghost predicate WindowOk(v: BookView) {
    && v.base % TICK == 0 && |v.bid.levels| == |v.ask.levels|
    && v.base + |v.bid.levels| * TICK <= WORD32
    && |v.orders| < WORD32
    && forall k :: k in v.orders ==> Placed(v.orders[k], v.base, |v.bid.levels|)
  }

  /** The coherence of levels and bits, with at most one stale level on each side. */
  ghost predicate BookOk(v: BookView, staleBid: int, staleAsk: int) {
    && WindowOk(v)
    && SideOk(Buy, v.base, v.orders, v.bid, staleBid)
    && SideOk(Sell, v.base, v.orders, v.ask, staleAsk)
  }

  // The top of book. It keeps raw prices while levels are bucketed by tick.

  function Sentinel(s: Side): nat {
    if s == Buy then NO_BID else NO_ASK
  }

  predicate Better(s: Side, price: nat, best: nat) {
    if s == Buy then price > best else price < best
  }

  function Lifted(s: Side, price: nat, best: nat): nat {
    if Better(s, price, best) then price else best
  }

  /** The highest resting bid or the lowest resting ask; with none resting, the empty sentinel. */
  ghost predicate IsBest(m: Orders, s: Side, q: nat) {
    && (forall k :: k in m && m[k].side == s ==> !Better(s, m[k].price, q))
    && (q == Sentinel(s) || exists k :: k in m && m[k].side == s && m[k].price == q)
  }

  ghost predicate NoneOn(m: Orders, s: Side) {
    forall k :: k in m ==> m[k].side != s
  }

  ghost function Best(m: Orders, s: Side): (q: nat)
    ensures IsBest(m, s, q)
  {
    BestExists(m, s);
    var p: nat :| IsBest(m, s, p);
    p
  }

  lemma {:induction false} BestExists(m: Orders, s: Side)
    ensures exists p: nat :: IsBest(m, s, p)
  {
    if m == map[] {
      assert IsBest(m, s, Sentinel(s));
    } else {
      var k :| k in m;
      var rest := m - {k};
      BestExists(rest, s);
      var p: nat :| IsBest(rest, s, p);
      assert forall j :: j in m ==> j == k || j in rest;
      assert IsBest(m, s, if m[k].side == s && Better(s, m[k].price, p) then m[k].price else p);
    }
  }

  lemma BestUnique(m: Orders, s: Side, p: nat, q: nat)
    requires IsBest(m, s, p) && IsBest(m, s, q)
    requires forall k :: k in m ==> m[k].price < WORD32
    requires p < WORD32 && q < WORD32
    ensures p == q
  {
  }

  /** Where the top of book hops from an emptied level: the tick of the best order left. */
  ghost function HopTo(m: Orders, s: Side): nat {
    if NoneOn(m, s) then Sentinel(s) else RoundDown(Best(m, s))
  }

  /** The cached price after an order has left: it moves when the order had it and was its level's last. */
  ghost function TopAfterLeaving(m: Orders, s: Side, price: nat, best: nat): nat {
    if best == price && RefsAt(m, s, RoundDown(price)) == {} then HopTo(m, s) else best
  }

  /** No set bit lies beyond the best price's level, which is in the window if there is one. */
  ghost predicate TopBound(s: Side, base: nat, v: SideView) {
    && (v.best == Sentinel(s) || InWindow(base, |v.levels|, v.best))
    && forall i :: i in v.bits ==>
         if s == Buy then base + i * TICK <= v.best else v.best < base + i * TICK + TICK
  }

  ghost predicate TopOk(v: BookView) {
    TopBound(Buy, v.base, v.bid) && TopBound(Sell, v.base, v.ask)
  }

  /** A positive number of ticks. */
  predicate WholePrice(price: nat) {
    0 < price < NO_ASK && price % TICK == 0
  }

  ghost predicate Whole(m: Orders) {
    forall k :: k in m ==> WholePrice(m[k].price)
  }

  lemma CountBounds(m: Orders, s: Side, price: nat)
    ensures SumOver(m, OneAt(s, price)) == |RefsAt(m, s, price)| <= |m|
  {
    CountIsCardinality(m, s, price);
    SubsetSize(RefsAt(m, s, price), m.Keys);
  }

  lemma SubsetSize<T>(a: set<T>, b: set<T>)
    requires a <= b
    ensures |a| <= |b|
  {
    if a != {} {
      var x :| x in a;
      SubsetSize(a - {x}, b - {x});
    }
  }

  /** Level counts are exact, so a level is occupied just when some order rests there. */
  lemma LevelCount(m: Orders, s: Side, price: nat)
    requires |m| < WORD32
    ensures LevelFor(m, s, price).orderCount == |RefsAt(m, s, price)|
  {
    CountBounds(m, s, price);
  }

  /** Index of a price inside the window: that of its tick. */
  lemma LevelIndex(base: nat, maxLevels: nat, price: nat)
    requires base % TICK == 0 && base + maxLevels * TICK <= WORD32 && price < WORD32
    ensures InRange(base, maxLevels, price) <==> InWindow(base, maxLevels, price)
    ensures InRange(base, maxLevels, price) ==>
              IndexOf(base, price) < maxLevels && base + IndexOf(base, price) * TICK == RoundDown(price)
  {
    InRangeAt(base, maxLevels, price);
  }
}
