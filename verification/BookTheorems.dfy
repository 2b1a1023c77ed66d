/** What a coherent book tells its readers, and why its redundant state is determined by its orders. */
module BookTheorems {
  import opened Common
  import opened CoreOrderMap
  import opened PriceLevels
  import opened BookSpec
  import opened BookSteps
  import opened OrderBookModule
  import opened TopOfBook

  /**
   A level's count is the number of orders resting on it, its shares are their sum in uint32_t,
   and its bit is set just when there are any.
   */
  lemma LevelExact(v: BookView, s: Side, i: nat)
    requires BookOk(v, -1, -1) && i < |v.bid.levels|
    ensures var w, p := SideOf(v, s), v.base + i * TICK;
            && w.levels[i].orderCount == |RefsAt(v.orders, s, p)|
            && w.levels[i].totalShares == U32(SumOver(v.orders, SharesAt(s, p)))
            && (i in w.bits <==> RefsAt(v.orders, s, p) != {})
  {
    hide RefsAt;
    var w := SideOf(v, s);
    LevelAt(w.levels, v.orders, s, v.base, i);
    LevelCount(v.orders, s, v.base + i * TICK);
  }

  /** No resting bid has a tick above best_bid's and no resting ask a tick below best_ask's. */
  lemma TopOfBookBounds(v: BookView, s: Side)
    requires BookOk(v, -1, -1) && TopOk(v)
    ensures TickBound(v.orders, s, SideOf(v, s).best)
  {
    hide LevelFor, LevelsMatch, IndexOf, InRange, RoundDown;
    forall k | k in v.orders && v.orders[k].side == s
      ensures var best, price := RoundDown(SideOf(v, s).best), RoundDown(v.orders[k].price);
              if s == Buy then price <= best else best <= price
    {
      RestingLevel(v, -1, -1, k);
      BitOf(v.orders, s, v.base, SideOf(v, s), k, IndexOf(v.base, v.orders[k].price));
      TickOrder(v.orders[k].price, SideOf(v, s).best);
    }
  }

  /** The orders determine levels and bits, and the cached prices where these are exact. */
  lemma OrdersDetermineBook(v: BookView, w: BookView)
    requires BookOk(v, -1, -1) && BookOk(w, -1, -1)
    requires v.orders == w.orders && v.base == w.base && |v.bid.levels| == |w.bid.levels|
    ensures v.bid.levels == w.bid.levels && v.bid.bits == w.bid.bits
    ensures v.ask.levels == w.ask.levels && v.ask.bits == w.ask.bits
    ensures v.bid.best == w.bid.best && v.ask.best == w.ask.best ==> v == w
  {
    hide LevelFor;
    SideDetermined(Buy, v.base, v.orders, v.bid, w.bid);
    SideDetermined(Sell, v.base, v.orders, v.ask, w.ask);
  }

  lemma SideDetermined(s: Side, base: nat, m: Orders, v: SideView, w: SideView)
    requires SideOk(s, base, m, v, -1) && SideOk(s, base, m, w, -1) && |v.levels| == |w.levels|
    ensures v.levels == w.levels && v.bits == w.bits
  {
    hide LevelFor;
    assert v.levels == w.levels;
    assert forall i :: i in v.bits <==> i in w.bits;
  }

  /** A book in its class is one that the theorems about cached prices speak of. */
  lemma BookFits(b: OrderBook)
    requires b.Valid()
    ensures Fits(b.Abs()) && TickBound(b.orders.live, Buy, b.bestBid) && TickBound(b.orders.live, Sell, b.bestAsk)
  {
    hide SideOk, PriceLevelArray.Valid, OrderMap.Valid;
    TopOfBookBounds(b.View(), Buy);
    TopOfBookBounds(b.View(), Sell);
  }

  /**
   Messages on a book whose cached prices are exact: they stay exact throughout if and only if
   every message meets its guard, and so when new orders are priced at whole ticks among such.
   */
  method ReplayExact(b: OrderBook, ms: seq<Msg>)
    requires b.Valid() && Exact(b.Abs()) && LegalRun(b.Abs(), ms, b.orders.slots.Length)
    modifies b.Repr
    ensures b.Valid() && b.Abs() == Run(old(b.Abs()), ms)
    ensures AlwaysExact(old(b.Abs()), ms) <==> GuardedRun(old(b.Abs()), ms)
    ensures old(Whole(b.orders.live)) && WholeRun(old(b.Abs()), ms) ==> Exact(b.Abs())
  {
    hide BookOk, TopOk, Exact, Fits, Whole, WholeRun, LegalRun, Run, AlwaysExact, GuardedRun, TickBound,
         PriceLevelArray.Valid, OrderMap.Valid;
    BookFits(b);
    RunExact(b.Abs(), ms, b.orders.slots.Length);
    if Whole(b.orders.live) && WholeRun(b.Abs(), ms) {
      WholeRunExact(b.Abs(), ms, b.orders.slots.Length);
    }
    b.Replay(ms);
  }

  /**
   The fused replace on one book and a delete followed by an add on another, from the same state,
   leave the two with the same orders, levels, bits and drop count, and with the same cached
   prices if and only if the order of work is free.
   */
  method FusedReplace(x: OrderBook, y: OrderBook, ref: nat, newRef: nat, side: Side, price: nat, shares: nat)
    requires x.Valid() && y.Valid() && x.Repr !! y.Repr && x.View() == y.View() && x.drops == y.drops
    requires x.orders.slots.Length == y.orders.slots.Length
    requires ref in x.orders.live && x.orders.live[ref].side == side
    requires Legal(x.Abs(), Replace(ref, newRef, price, shares), x.orders.slots.Length)
    modifies x.Repr, y.Repr
    ensures x.Valid() && y.Valid() && x.drops == y.drops && x.orders.live == y.orders.live
    ensures var v, w := x.View(), y.View();
            && v.bid.levels == w.bid.levels && v.bid.bits == w.bid.bits
            && v.ask.levels == w.ask.levels && v.ask.bits == w.ask.bits
    ensures var b := old(x.Abs());
            (x.View() == y.View() <==>
             (InWindow(b.base, b.maxLevels, price) ==>
                OrderOfWorkFree(b.orders - {ref}, side, b.orders[ref].price, price, TopOf(b, side))))
  {
    hide BookOk, TopOk, PriceLevelArray.Valid, OrderMap.Valid, InWindow, TopAfterLeaving, OrderOfWorkFree, TickBound;
    ghost var b := x.Abs();
    BookFits(x);
    FewerBound(b.orders, ref, side, TopOf(b, side));
    FusedTop(b.orders - {ref}, newRef, side, b.orders[ref].price, price, shares, TopOf(b, side));
    x.OnReplace(ref, newRef, price, shares);
    RoomAfterDelete(y, ref);
    y.OnDelete(ref);
    y.OnAdd(newRef, side, price, shares);
    OrdersDetermineBook(x.View(), y.View());
  }

  lemma FewerBound(m: Orders, ref: nat, s: Side, top: nat)
    requires TickBound(m, s, top)
    ensures TickBound(m - {ref}, s, top)
  {
  }

  lemma RoomAfterDelete(b: OrderBook, ref: nat)
    requires b.Valid() && ref in b.orders.live
    ensures |b.orders.live - {ref}| + 1 < b.orders.slots.Length
  {
    hide BookOk, TopOk, PriceLevelArray.Valid;
    assert (b.orders.live - {ref}).Keys == b.orders.live.Keys - {ref};
  }

  /**
   Off whole ticks a cached price can outlive every order: two bids share a level, the better
   one leaves while the level is still occupied, and the other's departure is compared with its
   own price.
   */
  method OffTickTopGoesStale(b: OrderBook)
    requires b.Valid() && b.orders.live == map[] && b.bids.base == 1000 && |b.bids.model| > 0
    requires b.bestBid == NO_BID && b.orders.slots.Length > 3
    modifies b.Repr
    ensures b.Valid() && b.orders.live == map[] && b.bestBid == 1005 && !SideExact(b.Abs(), Buy)
  {
    hide BookOk, TopOk, PriceLevelArray.Valid, OrderMap.Valid, HopTo;
    b.OnAdd(1, Buy, 1005, 1);
    b.OnAdd(2, Buy, 1002, 1);
    assert b.orders.live == map[1 := OrderEntry(1005, 1, Buy), 2 := OrderEntry(1002, 1, Buy)];
    assert 2 in RefsAt(b.orders.live - {1}, Buy, RoundDown(1005));
    b.OnDelete(1);
    b.OnDelete(2);
    NoneIsBest(b.orders.live);
  }

  /** A lone best bid at 1100 replaced by one at 1050: fused, best_bid ends at 1000; by delete and add, at 1050. */
  lemma FusedTopDiffers()
    ensures !OrderOfWorkFree(map[], Buy, 1100, 1050, 1100)
    ensures TopAfterLeaving(map[7 := OrderEntry(1050, 1, Buy)], Buy, 1100, 1100) == 1000
    ensures TopAfterLeaving(map[], Buy, 1100, 1100) == 0
  {
    var m := map[7 := OrderEntry(1050, 1, Buy)];
    assert m[7].price == 1050;
    assert RefsAt(m, Buy, 1100) == {} && RefsAt(map[], Buy, 1100) == {};
    assert IsBest(m, Buy, 1050) && m[7].side == Buy;
    BestUnique(m, Buy, Best(m, Buy), 1050);
  }

  lemma NoneIsBest(m: Orders)
    requires m == map[]
    ensures Best(m, Buy) == NO_BID
  {
    assert IsBest(m, Buy, Best(m, Buy));
  }
}
