/** How each elementary change of the book keeps its redundant state coherent, on values. */
module BookSteps {
  import opened Common
  import opened CoreOrderMap
  import opened PriceLevels
  import opened BookSpec

  function AddedTo(levels: seq<PriceLevel>, i: nat, shares: nat): seq<PriceLevel>
    requires i < |levels|
  {
    levels[i := PriceLevel(U32(levels[i].totalShares + shares), U32(levels[i].orderCount + 1))]
  }

  function TakenFrom(levels: seq<PriceLevel>, i: nat, shares: nat, gone: nat): seq<PriceLevel>
    requires i < |levels|
  {
    levels[i := PriceLevel(U32(levels[i].totalShares - shares), U32(levels[i].orderCount - gone))]
  }

  function SideOf(v: BookView, s: Side): SideView {
    if s == Buy then v.bid else v.ask
  }

  function WithSide(v: BookView, s: Side, w: SideView): BookView {
    if s == Buy then v.(bid := w) else v.(ask := w)
  }

  /** A side after an order at this price has been added to level i. */
  function Grown(s: Side, v: SideView, i: nat, price: nat, shares: nat): SideView
    requires i < |v.levels|
  {
    SideView(AddedTo(v.levels, i, shares),
             v.bits + (if v.levels[i].orderCount == 0 then {i} else {}),
             Lifted(s, price, v.best))
  }

  lemma WrapAgain(x: int, y: int)
    ensures U32(U32(x) + y) == U32(x + y)
  {
  }

  lemma LevelInsert(m: Orders, s: Side, price: nat, k: nat, e: OrderEntry)
    requires k !in m
    ensures var l, r := LevelFor(m, s, price), LevelFor(m[k := e], s, price);
            r == if RestsAt(e, s, price)
                 then PriceLevel(U32(l.totalShares + e.shares), U32(l.orderCount + 1)) else l
  {
    hide U32, SumOver;
    SumInsert(m, k, e, SharesAt(s, price));
    SumInsert(m, k, e, OneAt(s, price));
    WrapAgain(SumOver(m, SharesAt(s, price)), e.shares);
    WrapAgain(SumOver(m, OneAt(s, price)), 1);
  }

  lemma LevelRemove(m: Orders, s: Side, price: nat, k: nat)
    requires k in m
    ensures var e, l, r := m[k], LevelFor(m, s, price), LevelFor(m - {k}, s, price);
            r == if RestsAt(e, s, price)
                 then PriceLevel(U32(l.totalShares - e.shares), U32(l.orderCount - 1)) else l
  {
    hide U32, SumOver;
    SumRemove(m, k, SharesAt(s, price));
    SumRemove(m, k, OneAt(s, price));
    WrapAgain(SumOver(m, SharesAt(s, price)), 0 - m[k].shares);
    WrapAgain(SumOver(m, OneAt(s, price)), -1);
  }

  lemma LevelReduce(m: Orders, s: Side, price: nat, k: nat, x: nat)
    requires k in m && x <= m[k].shares
    ensures var e, l, r := m[k], LevelFor(m, s, price), LevelFor(m[k := m[k].(shares := m[k].shares - x)], s, price);
            r == if RestsAt(e, s, price) then PriceLevel(U32(l.totalShares - x), l.orderCount) else l
  {
    var e := m[k].(shares := m[k].shares - x);
    assert m[k := e] == (m - {k})[k := e];
    SumRemove(m, k, SharesAt(s, price));
    SumRemove(m, k, OneAt(s, price));
    SumInsert(m - {k}, k, e, SharesAt(s, price));
    SumInsert(m - {k}, k, e, OneAt(s, price));
  }

  lemma LevelsAdd(levels: seq<PriceLevel>, m: Orders, s: Side, base: nat, k: nat, e: OrderEntry, i: nat)
    requires LevelsMatch(levels, m, s, base) && k !in m
    requires i < |levels| && RestsAt(e, s, base + i * TICK)
    ensures LevelsMatch(AddedTo(levels, i, e.shares), m[k := e], s, base)
  {
    hide SumOver, LevelFor;
    forall j | 0 <= j < |levels|
      ensures AddedTo(levels, i, e.shares)[j] == LevelFor(m[k := e], s, base + j * TICK)
    {
      LevelInsert(m, s, base + j * TICK, k, e);
    }
  }

  /** A new order's own side: its level grows and its bit is set. */
  lemma SideAdd(s: Side, base: nat, m: Orders, v: SideView, stale: int, k: nat, e: OrderEntry, i: nat)
    requires SideOk(s, base, m, v, stale) && k !in m && |m| + 1 < WORD32
    requires i < |v.levels| && RestsAt(e, s, base + i * TICK)
    ensures SideOk(s, base, m[k := e], Grown(s, v, i, e.price, e.shares), stale)
  {
    hide SumOver, LevelFor, LevelsMatch, BitsMatch, AddedTo, RestsAt;
    var level := base + i * TICK;
    LevelsAdd(v.levels, m, s, base, k, e, i);
    assert v.levels[i] == LevelFor(m, s, level) by { LevelAt(v.levels, m, s, base, i); }
    LevelCount(m, s, level);
    CountBounds(m, s, level);
    BitsAdd(v.levels, v.bits, stale, i, e.shares);
  }

  lemma BitsAdd(levels: seq<PriceLevel>, bits: set<nat>, stale: int, i: nat, shares: nat)
    requires BitsMatch(levels, bits, stale) && i < |levels| && levels[i].orderCount + 1 < WORD32
    ensures bits + (if levels[i].orderCount == 0 then {i} else {}) == bits + {i}
    ensures BitsMatch(AddedTo(levels, i, shares), bits + {i}, stale)
  {
  }

  lemma LevelAt(levels: seq<PriceLevel>, m: Orders, s: Side, base: nat, i: nat)
    requires LevelsMatch(levels, m, s, base) && i < |levels|
    ensures levels[i] == LevelFor(m, s, base + i * TICK)
  {
  }

  lemma OtherSideAdd(s: Side, base: nat, m: Orders, v: SideView, stale: int, k: nat, e: OrderEntry)
    requires SideOk(s, base, m, v, stale) && k !in m && e.side != s
    ensures SideOk(s, base, m[k := e], v, stale)
  {
    hide SumOver, LevelFor;
    forall j | 0 <= j < |v.levels|
      ensures v.levels[j] == LevelFor(m[k := e], s, base + j * TICK)
    {
      LevelInsert(m, s, base + j * TICK, k, e);
    }
  }

  /** A departed order's own side: its level may now be stale, its bit still standing. */
  lemma SideRemove(s: Side, base: nat, m: Orders, v: SideView, k: nat, i: nat)
    requires SideOk(s, base, m, v, -1) && k in m && |m| < WORD32
    requires i < |v.levels| && RestsAt(m[k], s, base + i * TICK)
    ensures SideOk(s, base, m - {k}, v.(levels := TakenFrom(v.levels, i, m[k].shares, 1)), i)
  {
    hide SumOver, LevelFor;
    LevelCount(m, s, base + i * TICK);
    assert k in RefsAt(m, s, base + i * TICK);
    forall j | 0 <= j < |v.levels|
      ensures TakenFrom(v.levels, i, m[k].shares, 1)[j] == LevelFor(m - {k}, s, base + j * TICK)
    {
      LevelRemove(m, s, base + j * TICK, k);
    }
  }

  lemma OtherSideRemove(s: Side, base: nat, m: Orders, v: SideView, stale: int, k: nat)
    requires SideOk(s, base, m, v, stale) && k in m && m[k].side != s
    ensures SideOk(s, base, m - {k}, v, stale)
  {
    hide SumOver, LevelFor;
    forall j | 0 <= j < |v.levels|
      ensures v.levels[j] == LevelFor(m - {k}, s, base + j * TICK)
    {
      LevelRemove(m, s, base + j * TICK, k);
    }
  }

  lemma SideReduce(s: Side, base: nat, m: Orders, v: SideView, k: nat, x: nat, i: nat)
    requires SideOk(s, base, m, v, -1) && k in m && x <= m[k].shares && |m| < WORD32
    requires i < |v.levels| && RestsAt(m[k], s, base + i * TICK)
    ensures SideOk(s, base, m[k := m[k].(shares := m[k].shares - x)], v.(levels := TakenFrom(v.levels, i, x, 0)), -1)
  {
    hide SumOver, LevelFor;
    var level := base + i * TICK;
    LevelCount(m, s, level);
    CountBounds(m, s, level);
    assert v.levels[i] == LevelFor(m, s, level);
    forall j | 0 <= j < |v.levels|
      ensures TakenFrom(v.levels, i, x, 0)[j] == LevelFor(m[k := m[k].(shares := m[k].shares - x)], s, base + j * TICK)
    {
      LevelReduce(m, s, base + j * TICK, k, x);
    }
  }

  lemma OtherSideReduce(s: Side, base: nat, m: Orders, v: SideView, k: nat, x: nat)
    requires SideOk(s, base, m, v, -1) && k in m && x <= m[k].shares && m[k].side != s
    ensures SideOk(s, base, m[k := m[k].(shares := m[k].shares - x)], v, -1)
  {
    hide SumOver, LevelFor;
    forall j | 0 <= j < |v.levels|
      ensures v.levels[j] == LevelFor(m[k := m[k].(shares := m[k].shares - x)], s, base + j * TICK)
    {
      LevelReduce(m, s, base + j * TICK, k, x);
    }
  }

  /** A level that still has orders was never stale. */
  lemma SideSettled(s: Side, base: nat, m: Orders, v: SideView, i: nat)
    requires SideOk(s, base, m, v, i) && i < |v.levels| && v.levels[i].orderCount > 0
    ensures SideOk(s, base, m, v, -1)
  {
    hide LevelFor;
  }

  /** What the hop away from an emptied best price must find among the remaining bits. */
  ghost predicate NextBest(s: Side, base: nat, bits: set<nat>, i: nat, p: nat) {
    if s == Buy then
      && (p == 0 || exists j :: j in bits && j < i && p == base + j * TICK)
      && (forall j :: j in bits && j < i ==> base + j * TICK <= p)
    else
      && (p == NO_ASK || exists j :: j in bits && j > i && p == base + j * TICK)
      && (forall j :: j in bits && j > i ==> p <= base + j * TICK)
  }

  /** Clearing the bit of an emptied level. */
  lemma SideEmptied(s: Side, base: nat, m: Orders, v: SideView, i: nat, best: nat)
    requires SideOk(s, base, m, v, i) && i < |v.levels| && v.levels[i].orderCount == 0
    ensures SideOk(s, base, m, SideView(v.levels, v.bits - {i}, best), -1)
  {
    hide LevelFor;
  }

  lemma SideEmpty(s: Side, base: nat, v: SideView)
    requires forall i :: 0 <= i < |v.levels| ==> v.levels[i] == PriceLevel(0, 0)
    requires v.bits == {} && v.best == Sentinel(s)
    ensures SideOk(s, base, map[], v, -1) && TopBound(s, base, v)
  {
  }

  // The top of book.

  /** A new order may become the best. */
  lemma TopAdd(s: Side, base: nat, v: SideView, i: nat, e: OrderEntry)
    requires TopBound(s, base, v) && i < |v.levels| && RoundDown(e.price) == base + i * TICK
    requires InWindow(base, |v.levels|, e.price)
    ensures TopBound(s, base, Grown(s, v, i, e.price, e.shares))
  {
  }

  /** The level of a departed order has emptied; only its price is compared with the best one. */
  lemma TopEmptied(s: Side, base: nat, v: SideView, i: nat, price: nat, best: nat)
    requires TopBound(s, base, v) && RoundDown(price) == base + i * TICK
    requires forall j :: j in v.bits ==> j < |v.levels|
    requires if v.best == price then NextBest(s, base, v.bits - {i}, i, best) else best == v.best
    ensures TopBound(s, base, SideView(v.levels, v.bits - {i}, best))
  {
    assert v.best == price ==> forall j :: j in v.bits && j != i ==> if s == Buy then j < i else j > i;
  }

  lemma TickOrder(x: nat, y: nat)
    ensures x <= y ==> RoundDown(x) <= RoundDown(y)
    ensures RoundDown(x) <= y ==> RoundDown(x) <= RoundDown(y)
    ensures y < RoundDown(x) + TICK ==> RoundDown(y) <= RoundDown(x)
  {
  }

  /** An occupied level has an order resting on it. */
  lemma RestingAt(m: Orders, s: Side, base: nat, levels: seq<PriceLevel>, i: nat) returns (k: nat)
    requires LevelsMatch(levels, m, s, base) && |m| < WORD32 && i < |levels| && levels[i].orderCount > 0
    ensures k in m && RestsAt(m[k], s, base + i * TICK)
  {
    hide LevelFor, LevelsMatch;
    LevelAt(levels, m, s, base, i);
    LevelCount(m, s, base + i * TICK);
    k :| k in RefsAt(m, s, base + i * TICK);
  }

  /** An order's level has its bit set. */
  lemma BitOf(m: Orders, s: Side, base: nat, v: SideView, k: nat, i: nat)
    requires SideOk(s, base, m, v, -1) && |m| < WORD32 && i < |v.levels| && k in m && RestsAt(m[k], s, base + i * TICK)
    ensures i in v.bits
  {
    hide LevelFor, LevelsMatch;
    LevelAt(v.levels, m, s, base, i);
    LevelCount(m, s, base + i * TICK);
    assert k in RefsAt(m, s, base + i * TICK);
  }

  /** The hop from an emptied best level lands on the tick of the best order left. */
  lemma HopIsBestTick(v: BookView, s: Side, i: nat, p: nat)
    requires BookOk(v, -1, -1) && NextBest(s, v.base, SideOf(v, s).bits, i, p)
    requires forall j :: j in SideOf(v, s).bits ==> if s == Buy then j < i else j > i
    ensures p == HopTo(v.orders, s)
  {
    hide LevelFor, LevelsMatch, RoundDown, IndexOf, InRange;
    var w, m := SideOf(v, s), v.orders;
    if NoneOn(m, s) {
      forall j | j in w.bits
        ensures false
      {
        var k := RestingAt(m, s, v.base, w.levels, j);
      }
    } else {
      PricesFit(v);
      var q := Best(m, s);
      var k := BestHolder(m, s);
      RestingLevel(v, -1, -1, k);
      BitOf(m, s, v.base, w, k, IndexOf(v.base, q));
      if p != Sentinel(s) {
        var j :| j in w.bits && p == v.base + j * TICK;
        var h := RestingAt(m, s, v.base, w.levels, j);
        TickOrder(m[h].price, q);
        TickOrder(q, m[h].price);
      }
    }
  }

  lemma PricesFit(v: BookView)
    requires BookOk(v, -1, -1)
    ensures forall k :: k in v.orders ==> v.orders[k].price < WORD32
  {
    hide SideOk;
  }

  /** An order that rests at the best price of its side. */
  lemma BestHolder(m: Orders, s: Side) returns (k: nat)
    requires !NoneOn(m, s) && forall j :: j in m ==> m[j].price < WORD32
    ensures k in m && m[k].side == s && m[k].price == Best(m, s)
  {
    var j :| j in m && m[j].side == s;
    k := if Best(m, s) == Sentinel(s) then j else Holder(m, s);
  }

  ghost function Holder(m: Orders, s: Side): (k: nat)
    requires exists j :: j in m && m[j].side == s && m[j].price == Best(m, s)
    ensures k in m && m[k].side == s && m[k].price == Best(m, s)
  {
    var j :| j in m && m[j].side == s && m[j].price == Best(m, s);
    j
  }

  /** Stale marks for one side's level. */
  function StaleBid(side: Side, i: int): int {
    if side == Buy then i else -1
  }

  function StaleAsk(side: Side, i: int): int {
    if side == Sell then i else -1
  }

  /** A resting order's level is in range, at the tick of its price. */
  lemma RestingLevel(v: BookView, staleBid: int, staleAsk: int, k: nat)
    requires BookOk(v, staleBid, staleAsk) && k in v.orders
    ensures var p, i := v.orders[k].price, IndexOf(v.base, v.orders[k].price);
            InRange(v.base, |v.bid.levels|, p) && i < |v.bid.levels| && v.base + i * TICK == RoundDown(p)
  {
    hide SideOk;
    LevelIndex(v.base, |v.bid.levels|, v.orders[k].price);
  }

  lemma WindowFacts(v: BookView, staleBid: int, staleAsk: int)
    requires BookOk(v, staleBid, staleAsk)
    ensures v.base % TICK == 0 && |v.bid.levels| == |v.ask.levels| && v.base + |v.bid.levels| * TICK <= WORD32
  {
  }

  /** The book with one more order, on level i. */
  function WithOrder(v: BookView, k: nat, e: OrderEntry, i: nat): BookView
    requires i < |v.bid.levels| && i < |v.ask.levels|
  {
    WithSide(v, e.side, Grown(e.side, SideOf(v, e.side), i, e.price, e.shares)).(orders := v.orders[k := e])
  }

  lemma TopsAdd(v: BookView, staleBid: int, staleAsk: int, k: nat, e: OrderEntry, i: nat)
    requires BookOk(v, staleBid, staleAsk) && TopOk(v)
    requires Placed(e, v.base, |v.bid.levels|) && i < |v.bid.levels| && RoundDown(e.price) == v.base + i * TICK
    ensures TopOk(WithOrder(v, k, e, i))
  {
    hide SideOk, TopBound;
    TopAdd(e.side, v.base, SideOf(v, e.side), i, e);
  }

  lemma BookAdd(v: BookView, staleBid: int, staleAsk: int, k: nat, e: OrderEntry, i: nat)
    requires BookOk(v, staleBid, staleAsk) && k !in v.orders && |v.orders| + 1 < WORD32
    requires Placed(e, v.base, |v.bid.levels|) && i < |v.bid.levels| && RoundDown(e.price) == v.base + i * TICK
    ensures BookOk(WithOrder(v, k, e, i), staleBid, staleAsk)
  {
    hide SideOk;
    if e.side == Buy {
      SideAdd(Buy, v.base, v.orders, v.bid, staleBid, k, e, i);
      OtherSideAdd(Sell, v.base, v.orders, v.ask, staleAsk, k, e);
    } else {
      SideAdd(Sell, v.base, v.orders, v.ask, staleAsk, k, e, i);
      OtherSideAdd(Buy, v.base, v.orders, v.bid, staleBid, k, e);
    }
  }

  /** The book without an order of level i, the level not settled yet. */
  function WithoutOrder(v: BookView, k: nat, i: nat): BookView
    requires k in v.orders && i < |v.bid.levels| && i < |v.ask.levels|
  {
    var s := v.orders[k].side;
    var w := SideOf(v, s);
    WithSide(v, s, w.(levels := TakenFrom(w.levels, i, v.orders[k].shares, 1))).(orders := v.orders - {k})
  }

  lemma BookRemove(v: BookView, k: nat, i: nat)
    requires BookOk(v, -1, -1) && k in v.orders && i < |v.bid.levels|
    requires RoundDown(v.orders[k].price) == v.base + i * TICK
    ensures var s, u := v.orders[k].side, WithoutOrder(v, k, i);
            BookOk(u, StaleBid(s, i), StaleAsk(s, i)) && (TopOk(v) ==> TopOk(u))
  {
    hide SideOk;
    var s := v.orders[k].side;
    SideRemove(s, v.base, v.orders, SideOf(v, s), k, i);
    assert |v.orders - {k}| <= |v.orders| by { SubsetSize((v.orders - {k}).Keys, v.orders.Keys); }
    if s == Buy {
      OtherSideRemove(Sell, v.base, v.orders, v.ask, -1, k);
    } else {
      OtherSideRemove(Buy, v.base, v.orders, v.bid, -1, k);
    }
  }

  lemma BookReduce(v: BookView, k: nat, x: nat, i: nat)
    requires BookOk(v, -1, -1) && k in v.orders && x <= v.orders[k].shares
    requires i < |v.bid.levels| && RoundDown(v.orders[k].price) == v.base + i * TICK
    ensures var s := v.orders[k].side;
            var w := SideOf(v, s);
            var u := WithSide(v, s, w.(levels := TakenFrom(w.levels, i, x, 0)))
                     .(orders := v.orders[k := v.orders[k].(shares := v.orders[k].shares - x)]);
            BookOk(u, -1, -1) && (TopOk(v) ==> TopOk(u))
  {
    hide SideOk;
    var s := v.orders[k].side;
    SideReduce(s, v.base, v.orders, SideOf(v, s), k, x, i);
    assert v.orders[k := v.orders[k].(shares := v.orders[k].shares - x)].Keys == v.orders.Keys;
    if s == Buy {
      OtherSideReduce(Sell, v.base, v.orders, v.ask, k, x);
    } else {
      OtherSideReduce(Buy, v.base, v.orders, v.bid, k, x);
    }
  }

  /** The book once a level that an order at this price has left is settled. */
  function Settled(v: BookView, s: Side, i: nat, best: nat): BookView
    requires i < |SideOf(v, s).levels|
  {
    var w := SideOf(v, s);
    if w.levels[i].orderCount == 0 then WithSide(v, s, SideView(w.levels, w.bits - {i}, best)) else v
  }

  lemma BookSettle(v: BookView, s: Side, i: nat, price: nat, best: nat)
    requires BookOk(v, StaleBid(s, i), StaleAsk(s, i)) && TopOk(v)
    requires i < |v.bid.levels| && RoundDown(price) == v.base + i * TICK
    requires var w := SideOf(v, s);
             w.levels[i].orderCount == 0 ==>
               if w.best == price then NextBest(s, v.base, w.bits - {i}, i, best) else best == w.best
    ensures var u := Settled(v, s, i, best);
            BookOk(u, -1, -1) && TopOk(u) && SideOf(u, s).best == TopAfterLeaving(v.orders, s, price, SideOf(v, s).best)
  {
    hide LevelsMatch, TopBound, NextBest, HopTo, LevelFor;
    var w, u := SideOf(v, s), Settled(v, s, i, best);
    LevelAt(w.levels, v.orders, s, v.base, i);
    LevelCount(v.orders, s, v.base + i * TICK);
    if w.levels[i].orderCount == 0 {
      SideEmptied(s, v.base, v.orders, w, i, best);
      TopEmptied(s, v.base, w, i, price, best);
      if w.best == price {
        BitsBeyond(s, v.base, w, i, price);
        HopIsBestTick(u, s, i, best);
      }
    } else {
      SideSettled(s, v.base, v.orders, w, i);
    }
  }

  lemma BitsBeyond(s: Side, base: nat, v: SideView, i: nat, price: nat)
    requires TopBound(s, base, v) && v.best == price && RoundDown(price) == base + i * TICK
    ensures forall j :: j in v.bits - {i} ==> if s == Buy then j < i else j > i
  {
  }
}
