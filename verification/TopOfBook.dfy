/**
 When the cached best prices are the best ones. They keep raw prices while levels are bucketed
 by tick, so a departure can leave them behind: exactly when it fails the guard below.
 */
module TopOfBook {
  import opened Common
  import opened CoreOrderMap
  import opened PriceLevels
  import opened BookSpec
  import opened BookSteps
  import opened OrderBookModule

  /** Prices are uint32_t. */
  ghost predicate Fits(b: Book) {
    b.bid < WORD32 && b.ask < WORD32 && forall k :: k in b.orders ==> b.orders[k].price < WORD32
  }

  ghost predicate SideExact(b: Book, s: Side) {
    TopOf(b, s) == Best(b.orders, s)
  }

  /** best_bid is the highest resting bid and best_ask the lowest resting ask, or the empty sentinels. */
  ghost predicate Exact(b: Book) {
    SideExact(b, Buy) && SideExact(b, Sell)
  }

  // One departure.

  /**
   An order at this price has left a side whose best price was top: it was not the best; or
   another rests at its price; or none rests; or the best left has the price of its tick, on
   another level.
   */
  ghost predicate LeaveGuard(m: Orders, s: Side, price: nat, top: nat) {
    || top != price
    || (exists k :: k in m && m[k].side == s && m[k].price == price)
    || NoneOn(m, s)
    || (Best(m, s) % TICK == 0 && RefsAt(m, s, RoundDown(price)) == {})
  }

  /** The best price of the side with an order at this price beside those of m. */
  ghost predicate IsBestWith(m: Orders, s: Side, price: nat, top: nat) {
    && (forall k :: k in m && m[k].side == s ==> !Better(s, m[k].price, top)) && !Better(s, price, top)
    && (top == price || exists k :: k in m && m[k].side == s && m[k].price == top)
  }

  /** A departure keeps the best price exact if and only if it meets the guard. */
  lemma LeaveExact(m: Orders, s: Side, price: nat, top: nat)
    requires IsBestWith(m, s, price, top) && price < WORD32 && top < WORD32
    requires forall k :: k in m ==> m[k].price < WORD32
    ensures TopAfterLeaving(m, s, price, top) == Best(m, s) <==> LeaveGuard(m, s, price, top)
  {
    hide RoundDown;
    BestFits(m, s);
    if top != price || (exists k :: k in m && m[k].side == s && m[k].price == price) {
      var k :| k in m && m[k].side == s && m[k].price == top;
      BestUnique(m, s, top, Best(m, s));
      assert top == price ==> k in RefsAt(m, s, RoundDown(price));
    } else if NoneOn(m, s) {
      BestUnique(m, s, Sentinel(s), Best(m, s));
    } else {
      var k := BestHolder(m, s);
      WholeTick(Best(m, s));
    }
  }

  lemma WholeTick(p: nat)
    ensures RoundDown(p) == p <==> p % TICK == 0
  {
  }

  lemma BestFits(m: Orders, s: Side)
    requires forall k :: k in m ==> m[k].price < WORD32
    ensures Best(m, s) < WORD32
  {
  }

  // One message.

  /** The book that an order has left, its side's price not settled yet. */
  function Without(b: Book, ref: nat): Book {
    b.(orders := b.orders - {ref})
  }

  ghost predicate Guard(b: Book, m: Msg) {
    match m
    case Add(_, _, _, _) => true
    case Execute(ref, x) => ref in b.orders && x == b.orders[ref].shares ==> DepartGuard(b, ref)
    case ExecuteAt(ref, x, _) => ref in b.orders && x == b.orders[ref].shares ==> DepartGuard(b, ref)
    case Cancel(ref, x) => ref in b.orders && x == b.orders[ref].shares ==> DepartGuard(b, ref)
    case Delete(ref) => ref in b.orders ==> DepartGuard(b, ref)
    case Replace(ref, newRef, price, shares) =>
      ref in b.orders ==>
        var e := b.orders[ref];
        var g := AddStep(Without(b, ref), newRef, e.side, price, shares);
        LeaveGuard(g.orders, e.side, e.price, TopOf(g, e.side))
  }

  ghost predicate DepartGuard(b: Book, ref: nat)
    requires ref in b.orders
  {
    LeaveGuard(b.orders - {ref}, b.orders[ref].side, b.orders[ref].price, TopOf(b, b.orders[ref].side))
  }

  /** The other side's orders, hence its best price, are as they were. */
  lemma SameBest(m: Orders, n: Orders, s: Side)
    requires forall k :: k in m && m[k].side == s ==> k in n && n[k].side == s && n[k].price == m[k].price
    requires forall k :: k in n && n[k].side == s ==> k in m && m[k].side == s
    requires forall k :: k in m ==> m[k].price < WORD32
    requires forall k :: k in n ==> n[k].price < WORD32
    ensures Best(m, s) == Best(n, s)
  {
    BestFits(m, s);
    BestFits(n, s);
    assert IsBest(n, s, Best(m, s));
    BestUnique(n, s, Best(m, s), Best(n, s));
  }

  function Other(s: Side): Side {
    if s == Buy then Sell else Buy
  }

  /** An add keeps both prices exact, whatever its price. */
  lemma AddExact(b: Book, ref: nat, side: Side, price: nat, shares: nat)
    requires Fits(b) && ref !in b.orders && price < WORD32 && SideExact(b, side)
    ensures var c := AddStep(b, ref, side, price, shares);
            Fits(c) && SideExact(c, side) && (SideExact(b, Other(side)) ==> SideExact(c, Other(side)))
  {
    var c := AddStep(b, ref, side, price, shares);
    if InWindow(b.base, b.maxLevels, price) {
      assert c.orders[ref].price == price;
      assert forall k :: k in b.orders ==> c.orders[k] == b.orders[k];
      BestFits(b.orders, side);
      BestFits(c.orders, side);
      assert IsBest(c.orders, side, TopOf(c, side)) by { AddedBest(b.orders, ref, side, price, shares); }
      BestUnique(c.orders, side, TopOf(c, side), Best(c.orders, side));
      SameBest(b.orders, c.orders, Other(side));
    }
  }

  lemma AddedBest(m: Orders, ref: nat, s: Side, price: nat, shares: nat)
    requires ref !in m
    ensures IsBest(m[ref := OrderEntry(price, shares, s)], s, Lifted(s, price, Best(m, s)))
  {
    var n := m[ref := OrderEntry(price, shares, s)];
    assert n[ref].price == price;
    if !Better(s, price, Best(m, s)) && Best(m, s) != Sentinel(s) {
      var k :| k in m && m[k].side == s && m[k].price == Best(m, s);
      assert n[k] == m[k];
    }
  }

  /** With the departed order still counted, an exact price is the best one. */
  lemma BestBeforeLeaving(b: Book, ref: nat)
    requires Fits(b) && ref in b.orders && SideExact(b, b.orders[ref].side)
    ensures var e := b.orders[ref];
            && IsBestWith(b.orders - {ref}, e.side, e.price, TopOf(b, e.side)) && TopOf(b, e.side) < WORD32
            && Best(b.orders - {ref}, Other(e.side)) == Best(b.orders, Other(e.side))
  {
    var e, rest := b.orders[ref], b.orders - {ref};
    var top := Best(b.orders, e.side);
    BestFits(b.orders, e.side);
    if top != e.price {
      var k := BestHolder(b.orders, e.side);
      assert k in rest && rest[k].price == top;
    }
    SameBest(rest, b.orders, Other(e.side));
  }

  lemma DepartExact(b: Book, ref: nat)
    requires Fits(b) && ref in b.orders && Exact(b)
    ensures Exact(DeleteStep(b, ref)) <==> DepartGuard(b, ref)
  {
    hide TopAfterLeaving, LeaveGuard, IsBestWith;
    var e := b.orders[ref];
    BestBeforeLeaving(b, ref);
    LeaveExact(b.orders - {ref}, e.side, e.price, TopOf(b, e.side));
  }

  /** With the new order entered, and the departed one still counted, the price is the best one. */
  lemma BestBeforeReplacing(b: Book, ref: nat, newRef: nat, price: nat, shares: nat)
    requires Fits(b) && ref in b.orders && Exact(b) && (newRef in b.orders ==> newRef == ref) && price < WORD32
    ensures var e := b.orders[ref];
            var g := AddStep(Without(b, ref), newRef, e.side, price, shares);
            && IsBestWith(g.orders, e.side, e.price, TopOf(g, e.side)) && TopOf(g, e.side) < WORD32
            && Best(g.orders, Other(e.side)) == Best(b.orders, Other(e.side))
            && TopOf(g, Other(e.side)) == TopOf(b, Other(e.side))
            && forall k :: k in g.orders ==> g.orders[k].price < WORD32
  {
    hide InWindow, Best, IsBestWith;
    var e := b.orders[ref];
    BestBeforeLeaving(b, ref);
    EnteredBest(b.orders - {ref}, newRef, e.side, price, shares, e.price, TopOf(b, e.side));
    OtherSideKept(b.orders - {ref}, newRef, e.side, price, shares);
  }

  lemma OtherSideKept(m: Orders, ref: nat, s: Side, price: nat, shares: nat)
    requires ref !in m && price < WORD32 && forall k :: k in m ==> m[k].price < WORD32
    ensures var n := m[ref := OrderEntry(price, shares, s)];
            Best(n, Other(s)) == Best(m, Other(s)) && forall k :: k in n ==> n[k].price < WORD32
  {
    SameBest(m, m[ref := OrderEntry(price, shares, s)], Other(s));
  }

  /** A replace keeps the prices exact if and only if the old order's departure meets the guard beside the new one. */
  lemma ReplaceExact(b: Book, ref: nat, newRef: nat, price: nat, shares: nat)
    requires Fits(b) && ref in b.orders && Exact(b) && (newRef in b.orders ==> newRef == ref) && price < WORD32
    ensures Exact(ReplaceStep(b, ref, newRef, price, shares)) <==> Guard(b, Replace(ref, newRef, price, shares))
  {
    hide TopAfterLeaving, LeaveGuard, AddStep, Best, IsBestWith;
    var e, g := b.orders[ref], AddStep(Without(b, ref), newRef, b.orders[ref].side, price, shares);
    BestBeforeReplacing(b, ref, newRef, price, shares);
    LeaveExact(g.orders, e.side, e.price, TopOf(g, e.side));
  }

  lemma EnteredBest(m: Orders, ref: nat, s: Side, price: nat, shares: nat, gone: nat, top: nat)
    requires IsBestWith(m, s, gone, top) && ref !in m
    ensures IsBestWith(m[ref := OrderEntry(price, shares, s)], s, gone, Lifted(s, price, top))
  {
    var n := m[ref := OrderEntry(price, shares, s)];
    assert n[ref].price == price;
    if top != gone {
      var k :| k in m && m[k].side == s && m[k].price == top;
      assert n[k] == m[k];
    }
  }

  /** A message keeps both cached prices exact if and only if it meets its guard. */
  lemma StepExact(b: Book, m: Msg, capacity: nat)
    requires Fits(b) && Exact(b) && Legal(b, m, capacity)
    ensures Exact(Step(b, m)) <==> Guard(b, m)
  {
    hide DepartGuard, TopAfterLeaving, LeaveGuard, SideExact;
    match m {
      case Add(ref, side, price, shares) => BothAdd(b, ref, side, price, shares);
      case Execute(ref, x) => ReduceExact(b, ref, x);
      case ExecuteAt(ref, x, _) => ReduceExact(b, ref, x);
      case Cancel(ref, x) => ReduceExact(b, ref, x);
      case Delete(ref) =>
        if ref in b.orders {
          DepartExact(b, ref);
        }
      case Replace(ref, newRef, price, shares) =>
        if ref in b.orders {
          ReplaceExact(b, ref, newRef, price, shares);
        }
    }
  }

  lemma BothAdd(b: Book, ref: nat, side: Side, price: nat, shares: nat)
    requires Fits(b) && Exact(b) && ref !in b.orders && price < WORD32
    ensures Exact(AddStep(b, ref, side, price, shares))
  {
    hide SideExact;
    AddExact(b, ref, side, price, shares);
  }

  lemma ReduceExact(b: Book, ref: nat, x: nat)
    requires Fits(b) && Exact(b) && (ref in b.orders ==> x <= b.orders[ref].shares)
    ensures Exact(ReduceStep(b, ref, x)) <==> (ref in b.orders && x == b.orders[ref].shares ==> DepartGuard(b, ref))
  {
    hide DepartGuard, DeleteStep, Best, IsBest;
    if ref in b.orders {
      if x == b.orders[ref].shares {
        DepartExact(b, ref);
      } else {
        var e := b.orders[ref];
        SameBest(b.orders, b.orders[ref := e.(shares := e.shares - x)], Buy);
        SameBest(b.orders, b.orders[ref := e.(shares := e.shares - x)], Sell);
      }
    }
  }

  lemma LeaveFits(b: Book, s: Side, price: nat)
    requires Fits(b)
    ensures Fits(LeaveStep(b, s, price))
  {
    hide RoundDown;
    BestFits(b.orders, s);
    TickBelow(Best(b.orders, s));
  }

  lemma StepFits(b: Book, m: Msg, capacity: nat)
    requires Fits(b) && Legal(b, m, capacity)
    ensures Fits(Step(b, m))
  {
    hide InWindow, LeaveStep;
    if !m.Add? && m.ref in b.orders {
      var e := b.orders[m.ref];
      LeaveFits(Without(b, m.ref), e.side, e.price);
      if m.Replace? {
        LeaveFits(AddStep(Without(b, m.ref), m.newRef, e.side, m.price, m.shares), e.side, e.price);
      }
    }
  }

  lemma TickBelow(p: nat)
    ensures RoundDown(p) <= p
  {
  }

  // Runs.

  ghost predicate GuardedRun(b: Book, ms: seq<Msg>) {
    forall k {:trigger ms[k]} :: 0 <= k < |ms| ==> Guard(Run(b, ms[..k]), ms[k])
  }

  ghost predicate AlwaysExact(b: Book, ms: seq<Msg>) {
    forall k :: 0 <= k <= |ms| ==> Exact(Run(b, ms[..k]))
  }

  lemma {:induction false} RunFits(b: Book, ms: seq<Msg>, capacity: nat)
    requires Fits(b) && LegalRun(b, ms, capacity)
    ensures Fits(Run(b, ms))
  {
    hide Fits, Step, Legal;
    if ms != [] {
      var n := |ms| - 1;
      assert forall j :: 0 <= j < n ==> ms[..n][..j] == ms[..j] && ms[..n][j] == ms[j];
      RunFits(b, ms[..n], capacity);
      StepFits(Run(b, ms[..n]), ms[n], capacity);
    }
  }

  /** From exact prices, a legal run keeps both exact throughout if and only if every message meets its guard. */
  lemma {:induction false} RunExact(b: Book, ms: seq<Msg>, capacity: nat)
    requires Fits(b) && Exact(b) && LegalRun(b, ms, capacity)
    ensures AlwaysExact(b, ms) <==> GuardedRun(b, ms)
  {
    hide Fits, Exact, Step, Legal, Guard;
    if ms == [] {
      assert ms[..0] == [];
    } else {
      var n := |ms| - 1;
      var front := ms[..n];
      assert forall j :: 0 <= j < n ==> front[j] == ms[j];
      assert forall j :: 0 <= j <= n ==> front[..j] == ms[..j];
      assert front[..n] == front && ms[..n + 1] == ms;
      RunExact(b, front, capacity);
      RunFits(b, front, capacity);
      if Exact(Run(b, front)) {
        StepExact(Run(b, front), ms[n], capacity);
      }
    }
  }

  // Whole ticks.

  /** A new order inside the window is priced at a whole tick. */
  predicate WholeMsg(b: Book, m: Msg) {
    match m
    case Add(_, _, price, _) => InWindow(b.base, b.maxLevels, price) ==> WholePrice(price)
    case Replace(_, _, price, _) => InWindow(b.base, b.maxLevels, price) ==> WholePrice(price)
    case _ => true
  }

  /** Among whole ticks every departure meets the guard. */
  lemma WholeLeaves(m: Orders, s: Side, price: nat, top: nat)
    requires Whole(m) && WholePrice(price)
    ensures LeaveGuard(m, s, price, top)
  {
    if !NoneOn(m, s) {
      var k := BestHolder(m, s);
      if RefsAt(m, s, RoundDown(price)) != {} {
        var j :| j in RefsAt(m, s, RoundDown(price));
        assert m[j].price == price;
      }
    }
  }

  lemma WholeStep(b: Book, m: Msg)
    requires Whole(b.orders) && WholeMsg(b, m)
    ensures Whole(Step(b, m).orders) && Guard(b, m)
  {
    hide LeaveGuard, TopAfterLeaving, InWindow, WholePrice;
    if !m.Add? && m.ref in b.orders {
      var e := b.orders[m.ref];
      WholeLeaves(b.orders - {m.ref}, e.side, e.price, TopOf(b, e.side));
      if m.Replace? {
        var g := AddStep(Without(b, m.ref), m.newRef, e.side, m.price, m.shares);
        WholeLeaves(g.orders, e.side, e.price, TopOf(g, e.side));
      }
    }
  }

  ghost predicate WholeRun(b: Book, ms: seq<Msg>) {
    forall k {:trigger ms[k]} :: 0 <= k < |ms| ==> WholeMsg(b, ms[k])
  }

  /** With whole ticks - an empty book is one - both cached prices stay exact in every legal run. */
  lemma {:induction false} WholeRunExact(b: Book, ms: seq<Msg>, capacity: nat)
    requires Fits(b) && Exact(b) && Whole(b.orders) && LegalRun(b, ms, capacity) && WholeRun(b, ms)
    ensures var r := Run(b, ms);
            Fits(r) && Exact(r) && Whole(r.orders) && r.base == b.base && r.maxLevels == b.maxLevels
  {
    hide Fits, Exact, Step, Legal, Guard, Whole, WholeMsg;
    RunFits(b, ms, capacity);
    if ms != [] {
      var n := |ms| - 1;
      assert forall j :: 0 <= j < n ==> ms[..n][..j] == ms[..j] && ms[..n][j] == ms[j];
      WholeRunExact(b, ms[..n], capacity);
      var r := Run(b, ms[..n]);
      SameWindow(b, r, ms[n]);
      WholeStep(r, ms[n]);
      StepExact(r, ms[n], capacity);
      StepKeepsWindow(r, ms[n]);
    }
  }

  lemma SameWindow(b: Book, r: Book, m: Msg)
    requires r.base == b.base && r.maxLevels == b.maxLevels
    ensures WholeMsg(b, m) <==> WholeMsg(r, m)
  {
  }

  // The fused replace against a delete and an add.

  /** No order rests a tick beyond the cached price. */
  ghost predicate TickBound(m: Orders, s: Side, top: nat) {
    forall k :: k in m && m[k].side == s ==>
      if s == Buy then RoundDown(m[k].price) <= RoundDown(top) else RoundDown(top) <= RoundDown(m[k].price)
  }

  /**
   When the two orders of work agree on the cached price: the old order was not the best; or its
   level is still occupied; or the new one joins that level without being worse; or the new one
   rests elsewhere and is better than the old, or at a whole tick, or not better than what is left.
   */
  ghost predicate OrderOfWorkFree(m: Orders, s: Side, gone: nat, price: nat, top: nat) {
    || top != gone
    || RefsAt(m, s, RoundDown(gone)) != {}
    || (RoundDown(price) == RoundDown(gone) && !Better(s, gone, price))
    || (RoundDown(price) != RoundDown(gone)
        && (|| Better(s, price, gone) || price % TICK == 0
            || (if s == Buy then price <= HopTo(m, s) else HopTo(m, s) <= RoundDown(price))))
  }

  /** m is what is left of the side without the old order; n has the new one too. */
  lemma FusedTop(m: Orders, ref: nat, s: Side, gone: nat, price: nat, shares: nat, top: nat)
    requires ref !in m && price < WORD32 && gone < WORD32 && TickBound(m, s, top)
    requires forall k :: k in m ==> m[k].price < WORD32
    ensures var n := m[ref := OrderEntry(price, shares, s)];
            TopAfterLeaving(n, s, gone, Lifted(s, price, top)) == Lifted(s, price, TopAfterLeaving(m, s, gone, top))
            <==> OrderOfWorkFree(m, s, gone, price, top)
  {
    hide RoundDown, HopTo;
    var n := m[ref := OrderEntry(price, shares, s)];
    RefsWith(m, ref, s, gone, price, shares);
    if top == gone && RefsAt(m, s, RoundDown(gone)) == {} {
      HopBeyond(m, s, gone);
      TickOrders(price, gone);
      if RoundDown(price) != RoundDown(gone) && !Better(s, price, gone) {
        HopWith(m, ref, s, price, shares);
        WholeTick(price);
      }
    }
  }

  lemma RefsWith(m: Orders, ref: nat, s: Side, gone: nat, price: nat, shares: nat)
    requires ref !in m
    ensures var n := m[ref := OrderEntry(price, shares, s)];
            (RefsAt(n, s, RoundDown(gone)) == {}) <==>
            (RefsAt(m, s, RoundDown(gone)) == {} && RoundDown(price) != RoundDown(gone))
  {
    hide RoundDown;
    var n, level := m[ref := OrderEntry(price, shares, s)], RoundDown(gone);
    assert n[ref].price == price && forall k :: k in m ==> n[k] == m[k];
    if RefsAt(m, s, level) != {} {
      var k :| k in RefsAt(m, s, level);
      assert k in RefsAt(n, s, level);
    }
    if RoundDown(price) == level {
      assert ref in RefsAt(n, s, level);
    }
    if RefsAt(n, s, level) != {} {
      var k :| k in RefsAt(n, s, level);
      assert k == ref || k in RefsAt(m, s, level);
    }
  }

  /** With the best level empty, the side's next tick lies beyond it. */
  lemma HopBeyond(m: Orders, s: Side, gone: nat)
    requires TickBound(m, s, gone) && RefsAt(m, s, RoundDown(gone)) == {}
    requires forall k :: k in m ==> m[k].price < WORD32
    ensures || HopTo(m, s) == Sentinel(s)
            || (if s == Buy then HopTo(m, s) < RoundDown(gone) else HopTo(m, s) > RoundDown(gone))
    ensures HopTo(m, s) != Sentinel(s) ==> RoundDown(HopTo(m, s)) == HopTo(m, s)
  {
    hide RoundDown;
    if !NoneOn(m, s) {
      var k := BestHolder(m, s);
      assert k !in RefsAt(m, s, RoundDown(gone));
      TickTwice(Best(m, s));
    }
  }

  lemma TickTwice(p: nat)
    ensures RoundDown(RoundDown(p)) == RoundDown(p)
  {
  }

  lemma TickOrders(p: nat, q: nat)
    ensures RoundDown(p) <= p < RoundDown(p) + TICK && RoundDown(q) <= q < RoundDown(q) + TICK
    ensures RoundDown(p) < RoundDown(q) ==> RoundDown(p) + TICK <= RoundDown(q)
    ensures RoundDown(q) < RoundDown(p) ==> RoundDown(q) + TICK <= RoundDown(p)
  {
  }

  /** The next tick with one more order. */
  lemma HopWith(m: Orders, ref: nat, s: Side, price: nat, shares: nat)
    requires ref !in m && price < WORD32 && forall k :: k in m ==> m[k].price < WORD32
    ensures var h := HopTo(m, s);
            HopTo(m[ref := OrderEntry(price, shares, s)], s) == Lifted(s, RoundDown(price), h)
  {
    hide RoundDown;
    var n := m[ref := OrderEntry(price, shares, s)];
    assert n[ref].side == s && n[ref].price == price && forall k :: k in m ==> n[k] == m[k];
    AddedBest(m, ref, s, price, shares);
    BestFits(m, s);
    BestFits(n, s);
    BestUnique(n, s, Best(n, s), Lifted(s, price, Best(m, s)));
    TickOrder(price, Best(m, s));
    TickOrder(Best(m, s), price);
    LastBelow(price);
    if NoneOn(m, s) {
      assert Best(m, s) == Sentinel(s);
    }
  }

  lemma LastBelow(p: nat)
    requires p < WORD32
    ensures RoundDown(p) < NO_ASK && RoundDown(NO_ASK) < NO_ASK && RoundDown(0) == 0
  {
  }
}
