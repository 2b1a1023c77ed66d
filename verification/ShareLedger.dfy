/**
 What a feed's messages say of each order, told without the book: how it entered and what has been
 taken off it since. In every legal run the book rests exactly what this ledger leaves.
 */
module ShareLedger {
  import opened PriceLevels
  import opened CoreOrderMap
  import opened BookSpec
  import opened BookSteps
  import opened OrderBookModule

  // How an order last entered the window, if it was not deleted or replaced away since, and the
  // shares that each execution or cancellation of it has named since then.
  datatype Account = Account(entry: OrderEntry, takes: seq<nat>) | Absent

  function Sum(xs: seq<nat>): nat {
    if xs == [] then 0 else Sum(xs[..|xs| - 1]) + xs[|xs| - 1]
  }

  /** An order rests until its last share is taken; one that entered without shares rests until it is named. */
  predicate Rests(a: Account) {
    a.Account? && (a.takes == [] || Sum(a.takes) < a.entry.shares)
  }

  function Taking(a: Account, x: nat): Account {
    if a.Account? then a.(takes := a.takes + [x]) else a
  }

  /** The ledger of one order after the messages, the book's own orders having entered before them. */
  function Ledger(b: Book, ms: seq<Msg>, ref: nat): Account {
    if ms == [] then
      if ref in b.orders then Account(b.orders[ref], []) else Absent
    else
      var n := |ms| - 1;
      var before := Ledger(b, ms[..n], ref);
      match ms[n]
      case Add(r, side, price, shares) =>
        if r == ref && InWindow(b.base, b.maxLevels, price)
        then Account(OrderEntry(price, shares, side), [])
        else before
      case Replace(from, to, price, shares) =>
        var was := Ledger(b, ms[..n], from);
        if !Rests(was) then before
        else if to == ref && InWindow(b.base, b.maxLevels, price)
        then Account(OrderEntry(price, shares, was.entry.side), [])
        else if from == ref then Absent
        else before
      case Delete(r) => if r == ref then Absent else before
      case Execute(r, x) => if r == ref then Taking(before, x) else before
      case ExecuteAt(r, x, _) => if r == ref then Taking(before, x) else before
      case Cancel(r, x) => if r == ref then Taking(before, x) else before
  }

  /** Orders that would have entered outside the window. */
  function Dropped(b: Book, ms: seq<Msg>): nat {
    if ms == [] then 0
    else
      var n := |ms| - 1;
      Dropped(b, ms[..n]) +
      match ms[n]
      case Add(_, _, price, _) => if InWindow(b.base, b.maxLevels, price) then 0 else 1
      case Replace(from, _, price, _) =>
        if Rests(Ledger(b, ms[..n], from)) && !InWindow(b.base, b.maxLevels, price) then 1 else 0
      case _ => 0
  }

  /** The order rests if its account leaves it, at its own price and side, with what has not been taken. */
  ghost predicate Settles(orders: Orders, ref: nat, a: Account) {
    && (ref in orders <==> Rests(a))
    && (ref in orders ==> Sum(a.takes) <= a.entry.shares
                          && orders[ref] == a.entry.(shares := a.entry.shares - Sum(a.takes)))
  }

  ghost predicate Agrees(orders: Orders, b: Book, ms: seq<Msg>) {
    forall ref: nat :: Settles(orders, ref, Ledger(b, ms, ref))
  }

  /**
   In every legal run an order rests if and only if it entered, was not deleted or replaced away, and has
   shares left; it rests as it entered but for exactly the shares taken since. Drops are counted one by one.
   */
  lemma {:induction false} RunIsLedger(b: Book, ms: seq<Msg>, capacity: nat)
    requires LegalRun(b, ms, capacity)
    ensures Agrees(Run(b, ms).orders, b, ms) && Run(b, ms).drops == b.drops + Dropped(b, ms)
    ensures Run(b, ms).base == b.base && Run(b, ms).maxLevels == b.maxLevels
  {
    hide Step, Legal, InWindow, Settles;
    if ms == [] {
      Starts(b);
    } else {
      var n := |ms| - 1;
      assert forall j :: 0 <= j < n ==> ms[..n][..j] == ms[..j] && ms[..n][j] == ms[j];
      RunIsLedger(b, ms[..n], capacity);
      var r := Run(b, ms[..n]);
      StepKeepsWindow(r, ms[n]);
      forall ref: nat
        ensures Settles(Step(r, ms[n]).orders, ref, Ledger(b, ms, ref))
      {
        StepSettles(b, ms, r, ref, capacity);
      }
      StepDrops(b, ms, r);
    }
  }

  lemma Starts(b: Book)
    ensures Agrees(b.orders, b, [])
  {
  }

  lemma SumTake(xs: seq<nat>, x: nat)
    ensures Sum([]) == 0 && Sum(xs + [x]) == Sum(xs) + x
  {
    assert (xs + [x])[..|xs|] == xs;
  }

  /** Taking shares off an order is one more take of its account. */
  lemma TakeSettles(r: Book, ref: nat, a: Account, x: nat)
    requires Settles(r.orders, ref, a) && (ref in r.orders ==> x <= r.orders[ref].shares)
    ensures Settles(ReduceStep(r, ref, x).orders, ref, Taking(a, x))
  {
    hide ReduceStep, Sum;
    ShareTaken(r, ref, x);
    if a.Account? {
      SumTake(a.takes, x);
    }
  }

  lemma ShareTaken(r: Book, ref: nat, x: nat)
    requires ref in r.orders ==> x <= r.orders[ref].shares
    ensures var s := ReduceStep(r, ref, x);
            && (ref in s.orders <==> ref in r.orders && x < r.orders[ref].shares)
            && (ref in s.orders ==> s.orders[ref] == r.orders[ref].(shares := r.orders[ref].shares - x))
  {
    hide TopAfterLeaving;
  }

  lemma OtherOrders(r: Book, ref: nat, other: nat, x: nat)
    requires other != ref
    ensures other in ReduceStep(r, ref, x).orders <==> other in r.orders
    ensures other in r.orders ==> ReduceStep(r, ref, x).orders[other] == r.orders[other]
    ensures other in DeleteStep(r, ref).orders <==> other in r.orders
    ensures other in r.orders ==> DeleteStep(r, ref).orders[other] == r.orders[other]
    ensures ref !in DeleteStep(r, ref).orders
  {
    hide TopAfterLeaving;
  }

  /** What a replace leaves. */
  lemma Replaced(r: Book, from: nat, to: nat, price: nat, shares: nat)
    requires from in r.orders
    ensures var s := ReplaceStep(r, from, to, price, shares);
            s.orders == if InWindow(r.base, r.maxLevels, price)
                        then (r.orders - {from})[to := OrderEntry(price, shares, r.orders[from].side)]
                        else r.orders - {from}
    ensures ReplaceStep(r, from, to, price, shares).drops
            == if InWindow(r.base, r.maxLevels, price) then r.drops else r.drops + 1
  {
    hide TopAfterLeaving, InWindow;
  }

  lemma StepSettles(b: Book, ms: seq<Msg>, r: Book, ref: nat, capacity: nat)
    requires ms != [] && Agrees(r.orders, b, ms[..|ms| - 1]) && Legal(r, ms[|ms| - 1], capacity)
    requires r.base == b.base && r.maxLevels == b.maxLevels
    ensures Settles(Step(r, ms[|ms| - 1]).orders, ref, Ledger(b, ms, ref))
  {
    hide InWindow, ReduceStep, ReplaceStep, DeleteStep, LeaveStep, Sum;
    var m := ms[|ms| - 1];
    var before := Ledger(b, ms[..|ms| - 1], ref);
    SumTake([], 0);
    match m {
      case Add(_, _, _, _) =>
      case Replace(from, to, price, shares) =>
        assert Settles(r.orders, from, Ledger(b, ms[..|ms| - 1], from));
        if from in r.orders {
          Replaced(r, from, to, price, shares);
        } else {
          Unknown(r, from, to, price, shares);
        }
      case Delete(k) => Leaves(r, k, ref);
      case Execute(k, x) => Takes(r, k, ref, before, x);
      case ExecuteAt(k, x, _) => Takes(r, k, ref, before, x);
      case Cancel(k, x) => Takes(r, k, ref, before, x);
    }
  }

  lemma Unknown(r: Book, from: nat, to: nat, price: nat, shares: nat)
    requires from !in r.orders
    ensures ReplaceStep(r, from, to, price, shares) == r
  {
  }

  lemma Leaves(r: Book, k: nat, ref: nat)
    ensures ref in DeleteStep(r, k).orders <==> ref in r.orders && ref != k
    ensures ref in DeleteStep(r, k).orders ==> DeleteStep(r, k).orders[ref] == r.orders[ref]
  {
    hide TopAfterLeaving;
  }

  lemma Takes(r: Book, k: nat, ref: nat, a: Account, x: nat)
    requires Settles(r.orders, ref, a) && (k in r.orders ==> x <= r.orders[k].shares)
    ensures Settles(ReduceStep(r, k, x).orders, ref, if k == ref then Taking(a, x) else a)
  {
    if k == ref {
      TakeSettles(r, ref, a, x);
    } else {
      OtherOrders(r, k, ref, x);
    }
  }

  lemma StepDrops(b: Book, ms: seq<Msg>, r: Book)
    requires ms != [] && Agrees(r.orders, b, ms[..|ms| - 1])
    requires r.base == b.base && r.maxLevels == b.maxLevels && r.drops == b.drops + Dropped(b, ms[..|ms| - 1])
    ensures Step(r, ms[|ms| - 1]).drops == b.drops + Dropped(b, ms)
  {
    hide InWindow, TopAfterLeaving, ReplaceStep, Ledger;
    var m := ms[|ms| - 1];
    if m.Replace? {
      assert Settles(r.orders, m.ref, Ledger(b, ms[..|ms| - 1], m.ref));
      if m.ref in r.orders {
        Replaced(r, m.ref, m.newRef, m.price, m.shares);
      } else {
        Unknown(r, m.ref, m.newRef, m.price, m.shares);
      }
    }
  }

  /** An execution prints shares at the price and on the side that its order entered with, or at its own price. */
  lemma TradeIsLedger(b: Book, ms: seq<Msg>, m: Msg, capacity: nat)
    requires LegalRun(b, ms, capacity) && (m.Execute? || m.ExecuteAt?)
    ensures var a, t := Ledger(b, ms, m.ref), TradeOf(Run(b, ms), m);
            if !Rests(a) then t.shares == 0
            else t.shares == m.shares && t.side == a.entry.side
                 && t.price == if m.ExecuteAt? && m.shares > 0 then m.price else a.entry.price
  {
    hide Run, Legal, LegalRun, Ledger;
    RunIsLedger(b, ms, capacity);
  }

  /** Messages applied to a book leave in its map what the ledger of those messages leaves. */
  method ReplayIsLedger(b: OrderBook, ms: seq<Msg>)
    requires b.Valid() && LegalRun(b.Abs(), ms, b.orders.slots.Length)
    modifies b.Repr
    ensures b.Valid() && Agrees(b.orders.live, old(b.Abs()), ms)
    ensures b.drops == old(b.drops) + Dropped(old(b.Abs()), ms)
  {
    hide BookOk, TopOk, LegalRun, Run, Agrees, Ledger, PriceLevelArray.Valid, OrderMap.Valid;
    RunIsLedger(b.Abs(), ms, b.orders.slots.Length);
    b.Replay(ms);
  }
}
