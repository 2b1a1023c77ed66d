/**
 Core's L3 order book: order map, two level arrays with occupancy bitmaps, and a cached
 top of book, kept coherent by every message.
 */
module OrderBookModule {
  import opened Common
  import opened CoreOrderMap
  import opened PriceLevels
  import opened BookSpec
  import opened BookSteps
  import opened DepthSpec

  // Trade resolved from an execution; shares == 0 means none.
  datatype Trade = Trade(price: nat, shares: nat, side: Side)

  const NO_TRADE := Trade(0, 0, Buy)

  datatype Msg =
    | Add(ref: nat, side: Side, price: nat, shares: nat)
    | Execute(ref: nat, shares: nat)
    | ExecuteAt(ref: nat, shares: nat, price: nat)
    | Cancel(ref: nat, shares: nat)
    | Delete(ref: nat)
    | Replace(ref: nat, newRef: nat, price: nat, shares: nat)

  // The abstract book: what rests inside the window, how many orders fell outside it, and the cached prices.
  datatype Book = Book(base: nat, maxLevels: nat, orders: Orders, drops: nat, bid: nat, ask: nat)

  function TopOf(b: Book, s: Side): nat {
    if s == Buy then b.bid else b.ask
  }

  function WithTop(b: Book, s: Side, top: nat): Book {
    if s == Buy then b.(bid := top) else b.(ask := top)
  }

  function AddStep(b: Book, ref: nat, side: Side, price: nat, shares: nat): Book {
    if InWindow(b.base, b.maxLevels, price) then
      WithTop(b.(orders := b.orders[ref := OrderEntry(price, shares, side)]), side, Lifted(side, price, TopOf(b, side)))
    else b.(drops := b.drops + 1)
  }

  /** The cached price settles after an order at this price has left. */
  ghost function LeaveStep(b: Book, side: Side, price: nat): Book {
    WithTop(b, side, TopAfterLeaving(b.orders, side, price, TopOf(b, side)))
  }

  ghost function DeleteStep(b: Book, ref: nat): Book {
    if ref in b.orders then LeaveStep(b.(orders := b.orders - {ref}), b.orders[ref].side, b.orders[ref].price) else b
  }

  /** Executions and cancellations take shares off an order, and the order with its last share. */
  ghost function ReduceStep(b: Book, ref: nat, x: nat): Book {
    if ref !in b.orders || x > b.orders[ref].shares then b
    else if x == b.orders[ref].shares then DeleteStep(b, ref)
    else b.(orders := b.orders[ref := b.orders[ref].(shares := b.orders[ref].shares - x)])
  }

  /** A replace enters the new order on the old one's side before the old one's departure is settled. */
  ghost function ReplaceStep(b: Book, ref: nat, newRef: nat, price: nat, shares: nat): Book {
    if ref !in b.orders then b
    else
      var e := b.orders[ref];
      LeaveStep(AddStep(b.(orders := b.orders - {ref}), newRef, e.side, price, shares), e.side, e.price)
  }

  ghost function Step(b: Book, m: Msg): Book {
    match m
    case Add(ref, side, price, shares) => AddStep(b, ref, side, price, shares)
    case Execute(ref, x) => ReduceStep(b, ref, x)
    case ExecuteAt(ref, x, _) => ReduceStep(b, ref, x)
    case Cancel(ref, x) => ReduceStep(b, ref, x)
    case Delete(ref) => DeleteStep(b, ref)
    case Replace(ref, newRef, price, shares) => ReplaceStep(b, ref, newRef, price, shares)
  }

  /** The trade a message resolves: an execution prints at the display price or at its own. */
  function TradeOf(b: Book, m: Msg): Trade {
    match m
    case Execute(ref, x) => if ref in b.orders then Trade(b.orders[ref].price, x, b.orders[ref].side) else NO_TRADE
    case ExecuteAt(ref, x, price) =>
      if ref in b.orders then Trade(if x == 0 then b.orders[ref].price else price, x, b.orders[ref].side) else NO_TRADE
    case _ => NO_TRADE
  }

  /** A price and size of a new order: both are uint32_t on the wire. */
  predicate Listed(price: nat, shares: nat) {
    price < WORD32 && shares < WORD32
  }

  /** What the feed guarantees of each message: fresh references, no over-execution, room in the map. */
  predicate Legal(b: Book, m: Msg, capacity: nat) {
    match m
    case Add(ref, _, price, shares) => Listed(price, shares) && ref !in b.orders && |b.orders| + 1 < capacity
    case Execute(ref, x) => ref in b.orders ==> x <= b.orders[ref].shares
    case ExecuteAt(ref, x, _) => ref in b.orders ==> x <= b.orders[ref].shares
    case Cancel(ref, x) => ref in b.orders ==> x <= b.orders[ref].shares
    case Delete(_) => true
    case Replace(ref, newRef, price, shares) => Listed(price, shares) && (newRef in b.orders ==> newRef == ref)
  }

  /** The abstract book after a sequence of messages. */
  ghost function Run(b: Book, ms: seq<Msg>): Book {
    if ms == [] then b else Step(Run(b, ms[..|ms| - 1]), ms[|ms| - 1])
  }

  /** Every message is legal in the book it finds. */
  ghost predicate LegalRun(b: Book, ms: seq<Msg>, capacity: nat) {
    forall k {:trigger ms[k]} :: 0 <= k < |ms| ==> Legal(Run(b, ms[..k]), ms[k], capacity)
  }

  lemma StepKeepsWindow(b: Book, m: Msg)
    ensures Step(b, m).base == b.base && Step(b, m).maxLevels == b.maxLevels
  {
    hide TopAfterLeaving;
  }

  class OrderBook {
    const bids: PriceLevelArray
    const asks: PriceLevelArray
    const orders: OrderMap
    ghost const Repr: set<object>
    var bestBid: nat
    var bestAsk: nat
    var drops: nat

    /** The parts are separate and each is sound by itself. */
    ghost predicate Sound()
      reads this, Repr
    {
      && {this, bids, asks, orders, orders.slots} <= Repr && bids.Repr <= Repr && asks.Repr <= Repr
      && {bids, bids.occupied} <= bids.Repr && {asks, asks.occupied} <= asks.Repr
      && orders as object != this
      && this !in bids.Repr && orders !in bids.Repr && orders.slots !in bids.Repr
      && this !in asks.Repr && orders !in asks.Repr && orders.slots !in asks.Repr
      && bids.Repr !! asks.Repr
      && bids.Valid() && asks.Valid() && orders.Valid()
      && asks.base == bids.base && |asks.model| == |bids.model|
      && orders.slots.Length < WORD32
    }

    ghost function View(): BookView
      reads this, Repr
      requires Sound()
    {
      BookView(bids.base, orders.live,
               SideView(bids.model, bids.occupied.bits, bestBid),
               SideView(asks.model, asks.occupied.bits, bestAsk))
    }

    ghost function Abs(): Book
      reads this, Repr
      requires Sound()
    {
      Book(bids.base, |bids.model|, orders.live, drops, bestBid, bestAsk)
    }

    ghost predicate Valid()
      reads this, Repr
    {
      Sound() && BookOk(View(), -1, -1) && TopOk(View())
    }

    lemma Parts()
      requires Valid()
      ensures Sound() && this in Repr && Abs() == Book(bids.base, |bids.model|, orders.live, drops, bestBid, bestAsk)
    {
    }

    constructor (capacity: nat, maxLevels: nat, hash: nat -> nat)
      requires 0 < capacity < WORD32 && maxLevels * TICK <= WORD32
      ensures Valid() && fresh(Repr) && orders.slots.Length == capacity
      ensures Abs() == Book(0, maxLevels, map[], 0, NO_BID, NO_ASK)
    {
      hide SideOk, TopBound, PriceLevelArray.Valid, OrderMap.Valid;
      var b := new PriceLevelArray(maxLevels);
      var a := new PriceLevelArray(maxLevels);
      var o := new OrderMap(capacity, hash);
      bids, asks, orders := b, a, o;
      Repr := {this, b, a, o, o.slots} + b.Repr + a.Repr;
      bestBid, bestAsk, drops := NO_BID, NO_ASK, 0;
      new;
      SideEmpty(Buy, 0, View().bid);
      SideEmpty(Sell, 0, View().ask);
    }

    method Init(basePrice: nat)
      requires Valid() && orders.live == map[] && RoundDown(basePrice) + |bids.model| * TICK <= WORD32
      modifies Repr
      ensures Valid() && Abs() == old(Abs()).(base := RoundDown(basePrice), bid := NO_BID, ask := NO_ASK)
    {
      hide SideOk, TopBound, PriceLevelArray.Valid, OrderMap.Valid;
      bestBid, bestAsk := NO_BID, NO_ASK;
      bids.Init(basePrice);
      asks.Init(basePrice);
      SideEmpty(Buy, bids.base, View().bid);
      SideEmpty(Sell, bids.base, View().ask);
    }

    /** Puts an order on its level and compares its price with the best one. */
    method Grow(side: Side, price: nat, shares: nat)
      requires Sound() && InRange(bids.base, |bids.model|, price)
      modifies this`bestBid, this`bestAsk, bids.Repr, asks.Repr
      ensures Sound() && drops == old(drops)
      ensures var v := SideOf(old(View()), side);
              View() == WithSide(old(View()), side, Grown(side, v, IndexOf(old(bids.base), price), price, shares))
    {
      hide IndexOf, InRange, PriceLevelArray.Valid, OrderMap.Valid;
      if side == Buy {
        bids.AddOrder(price, shares);
        if price > bestBid {
          bestBid := price;
        }
      } else {
        asks.AddOrder(price, shares);
        if price < bestAsk {
          bestAsk := price;
        }
      }
    }

    /** Takes shares, and orders that are gone, off a level of one side. */
    method Shrink(side: Side, price: nat, shares: nat, gone: nat) returns (count: nat)
      requires Sound() && InRange(bids.base, |bids.model|, price)
      modifies bids.Repr, asks.Repr
      ensures Sound()
      ensures var i, v := IndexOf(old(bids.base), price), SideOf(old(View()), side);
              && View() == WithSide(old(View()), side, v.(levels := TakenFrom(v.levels, i, shares, gone)))
              && count == SideOf(View(), side).levels[i].orderCount
    {
      hide IndexOf, PriceLevelArray.Valid, OrderMap.Valid;
      if side == Buy {
        count := bids.Take(price, shares, gone);
      } else {
        count := asks.Take(price, shares, gone);
      }
    }

    /** Clears an emptied level's bit and, if it was the best, drops to the nearest surviving level. */
    method OnLevelEmptied(side: Side, price: nat)
      requires Sound() && InRange(bids.base, |bids.model|, price)
      modifies this`bestBid, this`bestAsk, bids.Repr, asks.Repr
      ensures Sound()
      ensures var i, v, w := IndexOf(bids.base, price), SideOf(old(View()), side), SideOf(View(), side);
              && View() == WithSide(old(View()), side, w)
              && w == SideView(v.levels, v.bits - {i}, w.best)
              && if v.best == price then NextBest(side, bids.base, w.bits, i, w.best) else w.best == v.best
    {
      hide IndexOf, InRange, PriceLevelArray.Valid, OrderMap.Valid, NextBest;
      ClearBit(side, price);
      if side == Buy {
        if price == bestBid {
          bestBid := HopDown(price);
        }
      } else if price == bestAsk {
        bestAsk := HopUp(price);
      }
    }

    method ClearBit(side: Side, price: nat)
      requires Sound() && InRange(bids.base, |bids.model|, price)
      modifies bids.Repr, asks.Repr
      ensures Sound()
      ensures var v := SideOf(old(View()), side);
              View() == WithSide(old(View()), side, v.(bits := v.bits - {IndexOf(bids.base, price)}))
    {
      hide IndexOf, PriceLevelArray.Valid, OrderMap.Valid;
      if side == Buy {
        bids.MarkEmpty(price);
      } else {
        asks.MarkEmpty(price);
      }
    }

    method OnAdd(ref: nat, side: Side, price: nat, shares: nat)
      requires Valid() && Legal(Abs(), Add(ref, side, price, shares), orders.slots.Length)
      modifies Repr
      ensures Valid() && Abs() == AddStep(old(Abs()), ref, side, price, shares)
    {
      hide SideOk, TopBound, SumOver, IndexOf, InRange, PriceLevelArray.Valid, OrderMap.Valid;
      LevelIndex(bids.base, |bids.model|, price);
      var covered := if side == Buy then bids.Covers(price) else asks.Covers(price);
      if !covered {
        drops := drops + 1;
        return;
      }
      Enter(ref, side, price, shares, -1, -1);
    }

    /** Rests an order inside the window: order map, level, occupancy bit, top of book. Stale levels stay so. */
    method Enter(ref: nat, side: Side, price: nat, shares: nat, ghost staleBid: int, ghost staleAsk: int)
      requires Sound() && BookOk(View(), staleBid, staleAsk) && TopOk(View())
      requires ref !in orders.live && |orders.live| + 1 < orders.slots.Length
      requires Listed(price, shares) && InWindow(bids.base, |bids.model|, price)
      modifies Repr
      ensures Sound() && BookOk(View(), staleBid, staleAsk) && TopOk(View())
      ensures Abs() == AddStep(old(Abs()), ref, side, price, shares)
    {
      hide BookOk, TopOk, IndexOf, InRange, PriceLevelArray.Valid, OrderMap.Valid, RoundDown;
      ghost var v, e := View(), OrderEntry(price, shares, side);
      WindowFacts(v, staleBid, staleAsk);
      LevelIndex(v.base, |v.bid.levels|, price);
      BookAdd(v, staleBid, staleAsk, ref, e, IndexOf(v.base, price));
      TopsAdd(v, staleBid, staleAsk, ref, e, IndexOf(v.base, price));
      orders.Insert(ref, price, shares, side);
      Grow(side, price, shares);
    }

    /** All coherent but for the bit and best price of one level, whose count is known. */
    ghost predicate Pending(side: Side, price: nat, count: nat)
      reads this, Repr
      requires Sound()
    {
      var i := IndexOf(bids.base, price);
      && i < |bids.model| && bids.base + i * TICK == RoundDown(price)
      && BookOk(View(), StaleBid(side, i), StaleAsk(side, i)) && TopOk(View())
      && count == SideOf(View(), side).levels[i].orderCount
    }

    /** Takes an order's last shares off its level and the order out of the map; the level may now be stale. */
    method Leave(ref: nat) returns (count: nat)
      requires Valid() && ref in orders.live
      modifies Repr
      ensures Sound() && |orders.live| + 1 < orders.slots.Length
      ensures Pending(old(orders.live)[ref].side, old(orders.live)[ref].price, count)
      ensures Abs() == old(Abs()).(orders := old(orders.live) - {ref})
    {
      hide SideOk, TopBound, SumOver, IndexOf, InRange, PriceLevelArray.Valid, OrderMap.Valid, WindowOk;
      ghost var v := View();
      RestingLevel(v, -1, -1, ref);
      var p := orders.Find(ref);
      var e := orders.slots[p.value].entry;
      BookRemove(v, ref, IndexOf(v.base, e.price));
      count := Shrink(e.side, e.price, e.shares, 1);
      orders.Erase(ref);
    }

    /** Settles the level that an order at this price has left: with no order on it, it is an emptied level. */
    method Settle(side: Side, price: nat, count: nat)
      requires Sound() && Pending(side, price, count)
      modifies Repr
      ensures Valid() && Abs() == LeaveStep(old(Abs()), side, price)
    {
      hide SideOk, TopBound, TopAfterLeaving, SumOver, IndexOf, PriceLevelArray.Valid, OrderMap.Valid, WindowOk;
      ghost var v, i := View(), IndexOf(bids.base, price);
      assert InRange(bids.base, |bids.model|, price);
      if count == 0 {
        OnLevelEmptied(side, price);
      }
      BookSettle(v, side, i, price, SideOf(View(), side).best);
    }

    method OnDelete(ref: nat)
      requires Valid()
      modifies Repr
      ensures Valid() && Abs() == DeleteStep(old(Abs()), ref)
    {
      hide BookOk, TopOk, TopAfterLeaving, PriceLevelArray.Valid, OrderMap.Valid;
      var p := orders.Find(ref);
      if p.Some? {
        Depart(ref);
      }
    }

    method OnExecute(ref: nat, x: nat) returns (t: Trade)
      requires Valid() && Legal(Abs(), Execute(ref, x), orders.slots.Length)
      modifies Repr
      ensures Valid() && Abs() == ReduceStep(old(Abs()), ref, x)
      ensures t == TradeOf(old(Abs()), Execute(ref, x))
    {
      hide SideOk, TopBound, SumOver, IndexOf, InRange, PriceLevelArray.Valid, OrderMap.Valid, WindowOk;
      var p := orders.Find(ref);
      if p == None {
        return NO_TRADE;
      }
      var e := orders.slots[p.value].entry;
      Reduce(ref, p.value, x);
      return Trade(e.price, x, e.side);
    }

    /** Takes shares off an order and its level; with its last share the order departs. */
    method Reduce(ref: nat, slot: nat, x: nat)
      requires Valid() && ref in orders.live && x <= orders.live[ref].shares
      requires slot < orders.slots.Length && orders.slots[slot] == Slot(ref, orders.live[ref], true)
      modifies Repr
      ensures Valid() && Abs() == ReduceStep(old(Abs()), ref, x)
    {
      hide BookOk, TopOk, TopAfterLeaving, PriceLevelArray.Valid, OrderMap.Valid;
      var left := orders.slots[slot].entry.shares - x;
      ghost var m := orders.live;
      TakeShares(ref, slot, x);
      if left == 0 {
        assert m[ref := m[ref].(shares := 0)] - {ref} == m - {ref};
        Depart(ref);
      }
    }

    method TakeShares(ref: nat, slot: nat, x: nat)
      requires Valid() && ref in orders.live && x <= orders.live[ref].shares
      requires slot < orders.slots.Length && orders.slots[slot] == Slot(ref, orders.live[ref], true)
      modifies Repr
      ensures Valid()
      ensures var b, e := old(Abs()), old(orders.live)[ref];
              Abs() == b.(orders := b.orders[ref := e.(shares := e.shares - x)])
    {
      hide SideOk, TopBound, SumOver, IndexOf, InRange, PriceLevelArray.Valid, OrderMap.Valid, WindowOk;
      var e := orders.slots[slot].entry;
      ghost var v := View();
      RestingLevel(v, -1, -1, ref);
      BookReduce(v, ref, x, IndexOf(v.base, e.price));
      var _ := Shrink(e.side, e.price, x, 0);
      orders.SetShares(slot, e.shares - x);
    }

    /** An order goes, and its level is settled. */
    method Depart(ref: nat)
      requires Valid() && ref in orders.live
      modifies Repr
      ensures Valid() && Abs() == DeleteStep(old(Abs()), ref)
    {
      hide BookOk, TopOk, TopAfterLeaving, PriceLevelArray.Valid, OrderMap.Valid;
      var p := orders.Find(ref);
      var e := orders.slots[p.value].entry;
      var count := Leave(ref);
      Settle(e.side, e.price, count);
    }

    method OnExecuteWithPrice(ref: nat, x: nat, price: nat) returns (t: Trade)
      requires Valid() && Legal(Abs(), ExecuteAt(ref, x, price), orders.slots.Length)
      modifies Repr
      ensures Valid() && Abs() == ReduceStep(old(Abs()), ref, x)
      ensures t == TradeOf(old(Abs()), ExecuteAt(ref, x, price))
    {
      t := OnExecute(ref, x);
      if t.shares != 0 {
        t := t.(price := price);
      }
    }

    method OnCancel(ref: nat, x: nat)
      requires Valid() && Legal(Abs(), Cancel(ref, x), orders.slots.Length)
      modifies Repr
      ensures Valid() && Abs() == ReduceStep(old(Abs()), ref, x)
    {
      var p := orders.Find(ref);
      if p == None {
        return;
      }
      Reduce(ref, p.value, x);
    }

    /** Inserts the new order before the old level is settled, so the old level's last order may be the new one. */
    method OnReplace(ref: nat, newRef: nat, price: nat, shares: nat)
      requires Valid() && Legal(Abs(), Replace(ref, newRef, price, shares), orders.slots.Length)
      modifies Repr
      ensures Valid() && Abs() == ReplaceStep(old(Abs()), ref, newRef, price, shares)
    {
      hide SideOk, TopBound, SumOver, IndexOf, PriceLevelArray.Valid, OrderMap.Valid;
      var p := orders.Find(ref);
      if p == None {
        return;
      }
      var e := orders.slots[p.value].entry;
      RestingLevel(View(), -1, -1, ref);
      LevelIndex(bids.base, |bids.model|, price);
      var count := Leave(ref);
      ghost var i := IndexOf(bids.base, e.price);
      var covered := if e.side == Buy then bids.Covers(price) else asks.Covers(price);
      if covered {
        Enter(newRef, e.side, price, shares, StaleBid(e.side, i), StaleAsk(e.side, i));
        count := if e.side == Buy then bids.At(e.price).orderCount else asks.At(e.price).orderCount;
      } else {
        drops := drops + 1;
      }
      Settle(e.side, e.price, count);
    }

    /** One message of the feed, and the trade it resolves. */
    method Apply(m: Msg) returns (t: Trade)
      requires Valid() && Legal(Abs(), m, orders.slots.Length)
      modifies Repr
      ensures Valid() && Abs() == Step(old(Abs()), m) && t == TradeOf(old(Abs()), m)
    {
      hide BookOk;
      t := NO_TRADE;
      match m {
        case Add(ref, side, price, shares) => OnAdd(ref, side, price, shares);
        case Execute(ref, x) => t := OnExecute(ref, x);
        case ExecuteAt(ref, x, price) => t := OnExecuteWithPrice(ref, x, price);
        case Cancel(ref, x) => OnCancel(ref, x);
        case Delete(ref) => OnDelete(ref);
        case Replace(ref, newRef, price, shares) => OnReplace(ref, newRef, price, shares);
      }
    }

    /** Any run of messages keeps the book coherent and ends in the abstract book of the run. */
    method Replay(ms: seq<Msg>)
      requires Valid() && LegalRun(Abs(), ms, orders.slots.Length)
      modifies Repr
      ensures Valid() && Abs() == Run(old(Abs()), ms)
    {
      hide BookOk, Legal, Step;
      ghost var b := Abs();
      assert ms[..0] == [];
      for k := 0 to |ms|
        invariant Valid() && Abs() == Run(b, ms[..k])
      {
        assert ms[..k + 1][..k] == ms[..k];
        var _ := Apply(ms[k]);
      }
      assert ms[..|ms|] == ms;
    }

    /** Walks the best bids from the top of book into out. */
    method TopBids(out: array<Level>, maxOut: int) returns (n: nat)
      requires Valid() && maxOut <= out.Length && out !in Repr
      modifies out
      ensures n <= out.Length && Walked(Buy, bids.base, SideOf(View(), Buy), out[..n], maxOut)
      ensures Valid() && View() == old(View()) && drops == old(drops)
    {
      hide BookOk, TopOk, IndexOf, InRange, PriceLevelArray.Valid, OrderMap.Valid, Walking, TopLevels, NextBest, Beyond;
      ghost var v := View();
      ghost var side := SideOf(v, Buy);
      WindowFacts(v, -1, -1);
      TopInRange(v, Buy);
      BeyondFacts(v, Buy);
      n := 0;
      var p: nat := bestBid;
      while n < maxOut && p != NO_BID
        invariant n <= Max(maxOut, 0) && p < WORD32
        invariant Valid() && View() == v && drops == old(drops)
        invariant p != NO_BID ==> InRange(v.base, |v.bid.levels|, p)
        invariant n == 0 ==> p == side.best
        invariant n > 0 ==> side.best != NO_BID && WalkHead(v.base, side, out[0])
        invariant n > 0 ==> Walking(Buy, v.base, Beyond(v.base, side), out[1..n], p)
        decreases maxOut - n
      {
        ghost var sofar, at := out[..n], p;
        LevelIndex(v.base, |v.bid.levels|, p);
        var lvl := bids.At(p);
        out[n] := Level(p, lvl.totalShares, lvl.orderCount);
        n := n + 1;
        p := HopDown(p);
        HopFacts(v, Buy, IndexOf(v.base, at), p);
        WalkOn(v, Buy, sofar, out[..n], at, p);
      }
      if n > 0 {
        WalkEnd(Buy, v.base, Beyond(v.base, side), out[1..n], p, maxOut - 1);
        assert out[..n][1..] == out[1..n];
      }
    }

    /** Walks the best asks from the top of book into out. */
    method TopAsks(out: array<Level>, maxOut: int) returns (n: nat)
      requires Valid() && maxOut <= out.Length && out !in Repr
      modifies out
      ensures n <= out.Length && Walked(Sell, bids.base, SideOf(View(), Sell), out[..n], maxOut)
      ensures Valid() && View() == old(View()) && drops == old(drops)
    {
      hide BookOk, TopOk, IndexOf, InRange, PriceLevelArray.Valid, OrderMap.Valid, Walking, TopLevels, NextBest, Beyond;
      ghost var v := View();
      ghost var side := SideOf(v, Sell);
      WindowFacts(v, -1, -1);
      TopInRange(v, Sell);
      BeyondFacts(v, Sell);
      n := 0;
      var p: nat := bestAsk;
      while n < maxOut && p != NO_ASK
        invariant n <= Max(maxOut, 0) && p < WORD32
        invariant Valid() && View() == v && drops == old(drops)
        invariant p != NO_ASK ==> InRange(v.base, |v.bid.levels|, p)
        invariant n == 0 ==> p == side.best
        invariant n > 0 ==> side.best != NO_ASK && WalkHead(v.base, side, out[0])
        invariant n > 0 ==> Walking(Sell, v.base, Beyond(v.base, side), out[1..n], p)
        decreases maxOut - n
      {
        ghost var sofar, at := out[..n], p;
        LevelIndex(v.base, |v.bid.levels|, p);
        var lvl := asks.At(p);
        out[n] := Level(p, lvl.totalShares, lvl.orderCount);
        n := n + 1;
        p := HopUp(p);
        HopFacts(v, Sell, IndexOf(v.base, at), p);
        WalkOn(v, Sell, sofar, out[..n], at, p);
      }
      if n > 0 {
        WalkEnd(Sell, v.base, Beyond(v.base, side), out[1..n], p, maxOut - 1);
        assert out[..n][1..] == out[1..n];
      }
    }

    /** The hop of the bid walk. */
    method HopDown(p: nat) returns (q: nat)
      requires Sound() && InRange(bids.base, |bids.model|, p)
      ensures Sound() && NextBest(Buy, bids.base, View().bid.bits, IndexOf(bids.base, p), q)
    {
      q := bids.PrevOccupiedBelow(p);
    }

    /** The hop of the ask walk: no level above is the sentinel. */
    method HopUp(p: nat) returns (q: nat)
      requires Sound() && InRange(bids.base, |bids.model|, p)
      ensures Sound() && NextBest(Sell, bids.base, View().ask.bits, IndexOf(bids.base, p), q)
    {
      var next := asks.NextOccupiedAbove(p);
      q := if next != 0 then next else NO_ASK;
    }
  }
}
