/** Core's feed: applies the events of one subscribed symbol to its book, opened at the first add. */
module PrimaryFeedModule {
  import opened Common
  import opened PriceLevels
  import opened CoreOrderMap
  import opened BookSpec
  import opened OrderBookModule

  // Only an add carries the ticker. BookEvent holds the E, C, X, D and U messages.
  datatype Event =
    | AddEvent(locate: nat, stock: string, ref: nat, side: Side, price: nat, shares: nat)
    | BookEvent(locate: nat, m: Msg)
    | HiddenTrade(locate: nat, price: nat, shares: nat, side: Side)
    | CrossTrade(locate: nat, price: nat, shares: nat)
    | OtherEvent(locate: nat)

  /** Where a new book's window starts: half a window below the first price, but not below zero. */
  function SeedBase(maxLevels: nat, price: nat): nat {
    var half := maxLevels / 2 * TICK;
    if price > half then price - half else 0
  }

  // The abstract feed: the books opened so far and the number of events applied.
  datatype Feed = Feed(maxLevels: nat, books: map<nat, Book>, count: nat)

  function Ensured(f: Feed, locate: nat, price: nat): Feed {
    if locate in f.books then f
    else
      var b := Book(RoundDown(SeedBase(f.maxLevels, price)), f.maxLevels, map[], 0, NO_BID, NO_ASK);
      f.(books := f.books[locate := b])
  }

  function MsgOf(e: Event): Option<Msg> {
    match e
    case AddEvent(_, _, ref, side, price, shares) => Some(Add(ref, side, price, shares))
    case BookEvent(_, m) => Some(m)
    case _ => None
  }

  /** Whether the event reaches a book: a subscribed add, or any event of an opened book. */
  predicate Accepted(f: Feed, symbol: string, e: Event) {
    if e.AddEvent? then e.stock == symbol else e.locate in f.books
  }

  ghost function FeedStep(f: Feed, symbol: string, e: Event): Feed {
    if !Accepted(f, symbol, e) then f
    else
      var g := if e.AddEvent? then Ensured(f, e.locate, e.price) else f;
      var h := match MsgOf(e)
               case Some(m) => g.(books := g.books[e.locate := Step(g.books[e.locate], m)])
               case None => g;
      h.(count := f.count + 1)
  }

  /** The trade an event resolves: a message's own, a hidden trade off the wire, or a sideless cross. */
  function EventTrade(f: Feed, symbol: string, e: Event): Trade {
    if !Accepted(f, symbol, e) then NO_TRADE
    else
      match e
      case BookEvent(l, m) => TradeOf(f.books[l], m)
      case HiddenTrade(_, price, shares, side) => Trade(price, shares, side)
      case CrossTrade(_, price, shares) => Trade(price, shares, Buy)
      case _ => NO_TRADE
  }

  // Runs.

  ghost function FeedRun(f: Feed, symbol: string, es: seq<Event>): Feed {
    if es == [] then f else FeedStep(FeedRun(f, symbol, es[..|es| - 1]), symbol, es[|es| - 1])
  }

  /** The messages meant for one book: from the first add of the symbol at its locate on, every message there. */
  function Heard(symbol: string, es: seq<Event>, l: nat): seq<Msg> {
    if es == [] then [] else HeardMore(symbol, Heard(symbol, es[..|es| - 1], l), es[|es| - 1], l)
  }

  function HeardMore(symbol: string, before: seq<Msg>, e: Event, l: nat): seq<Msg> {
    match e
    case AddEvent(k, stock, ref, side, price, shares) =>
      if k == l && stock == symbol then before + [Add(ref, side, price, shares)] else before
    case BookEvent(k, m) => if k == l && before != [] then before + [m] else before
    case _ => before
  }

  /** Events of the symbol's adds and of opened locates. */
  function Counted(symbol: string, es: seq<Event>): nat {
    if es == [] then 0
    else
      var e := es[|es| - 1];
      Counted(symbol, es[..|es| - 1])
      + if if e.AddEvent? then e.stock == symbol else Heard(symbol, es[..|es| - 1], e.locate) != [] then 1 else 0
  }

  function Seeded(maxLevels: nat, price: nat): Book {
    Book(RoundDown(SeedBase(maxLevels, price)), maxLevels, map[], 0, NO_BID, NO_ASK)
  }

  /** The book at the locate is the run of these messages, and there is none before the first. */
  ghost predicate Follows(f: Feed, l: nat, ms: seq<Msg>) {
    && (l in f.books <==> ms != [])
    && (ms != [] ==> ms[0].Add? && f.books[l] == Run(Seeded(f.maxLevels, ms[0].price), ms))
  }

  lemma StepFollows(f: Feed, symbol: string, e: Event, l: nat, ms: seq<Msg>)
    requires Follows(f, l, ms) && (e.BookEvent? ==> !e.m.Add?)
    ensures Follows(FeedStep(f, symbol, e), l, HeardMore(symbol, ms, e, l))
  {
    hide Step, SeedBase;
    if e.locate == l && MsgOf(e).Some? {
      var m := MsgOf(e).value;
      assert (ms + [m])[..|ms|] == ms;
      if ms == [] && e.AddEvent? {
        FirstStep(Seeded(f.maxLevels, e.price), m);
      }
    }
  }

  lemma FirstStep(b: Book, m: Msg)
    ensures Run(b, [m]) == Step(b, m)
  {
    assert [m][..0] == [];
  }

  /**
   Whatever the feed interleaves, each book is the run of its own messages, from a book seeded by the first of
   them, and the count is that of the events that reached a book.
   */
  lemma {:induction false} FeedIsBooks(maxLevels: nat, symbol: string, es: seq<Event>, l: nat)
    requires forall k :: 0 <= k < |es| && es[k].BookEvent? ==> !es[k].m.Add?
    ensures var r := FeedRun(Feed(maxLevels, map[], 0), symbol, es);
            r.maxLevels == maxLevels && r.count == Counted(symbol, es) && Follows(r, l, Heard(symbol, es, l))
  {
    hide Step, SeedBase, Run, HeardMore, Seeded;
    if es != [] {
      var n := |es| - 1;
      FeedIsBooks(maxLevels, symbol, es[..n], l);
      FeedIsBooks(maxLevels, symbol, es[..n], es[n].locate);
      StepFollows(FeedRun(Feed(maxLevels, map[], 0), symbol, es[..n]), symbol, es[n], l, Heard(symbol, es[..n], l));
    }
  }

  /** The feed's guarantee, in the book that the event finds or opens. */
  ghost predicate LegalEvent(f: Feed, symbol: string, e: Event, capacity: nat) {
    Accepted(f, symbol, e) ==>
      && (e.BookEvent? ==> !e.m.Add?)
      && (e.AddEvent? && e.locate !in f.books ==>
            RoundDown(SeedBase(f.maxLevels, e.price)) + f.maxLevels * TICK <= WORD32)
      && var g := if e.AddEvent? then Ensured(f, e.locate, e.price) else f;
         MsgOf(e).Some? ==> Legal(g.books[e.locate], MsgOf(e).value, capacity)
  }

  /**
   A seeded window holds the price that seeded it, and fits in 32 bits just when half a window
   above that price does.
   */
  lemma SeedHoldsFirstPrice(maxLevels: nat, price: nat)
    requires maxLevels % 2 == 0 && maxLevels > 0 && price < WORD32
    ensures var base, half := RoundDown(SeedBase(maxLevels, price)), maxLevels / 2 * TICK;
            && InWindow(base, maxLevels, price)
            && (maxLevels * TICK <= WORD32 ==>
                  (base + maxLevels * TICK <= WORD32 <==> price <= half || RoundDown(price) + half <= WORD32))
  {
    assert maxLevels == maxLevels / 2 * 2;
    var half := maxLevels / 2 * TICK;
    if price > half {
      RoundDownBelow(price, maxLevels / 2);
    }
  }

  lemma RoundDownBelow(price: nat, ticks: nat)
    requires ticks * TICK <= price
    ensures RoundDown(price - ticks * TICK) == RoundDown(price) - ticks * TICK
  {
  }

  // The highest price that a TotalView-ITCH 5.0 Price(4) field carries: 200,000.0000.
  const MAX_FEED_PRICE: nat := 2_000_000_000

  /** Every price that the feed may carry seeds a window that fits in 32 bits. */
  lemma FeedPriceFits(price: nat)
    requires price <= MAX_FEED_PRICE
    ensures RoundDown(SeedBase(LEVEL_COUNT, price)) + LEVEL_COUNT * TICK <= WORD32
  {
    SeedHoldsFirstPrice(LEVEL_COUNT, price);
  }

  /** A first price near 2^32 seeds a window that admits prices below it. */
  lemma SeededWindowWraps()
    ensures var price := 4294967200;
            var base := RoundDown(SeedBase(LEVEL_COUNT, price));
            WholePrice(price) && InRange(base, LEVEL_COUNT, 0) && !InWindow(base, LEVEL_COUNT, 0)
  {
    assert SeedBase(LEVEL_COUNT, 4294967200) == 4242538400;
    InRangeWraps();
  }

  class PrimaryFeed {
    const symbol: string
    const capacity: nat
    const maxLevels: nat
    const hash: nat -> nat
    ghost var Repr: set<object>
    var books: map<nat, OrderBook>
    ghost var held: map<nat, Book>  // what each book stands for
    var count: nat

    /** Each book has a footprint of its own. */
    ghost predicate Layout()
      reads `books, `Repr
    {
      this in Repr && 0 < capacity < WORD32 && maxLevels * TICK <= WORD32 && Separate(books, Repr)
    }

    ghost predicate Separate(bs: map<nat, OrderBook>, repr: set<object>) {
      && (forall l :: l in bs ==>
            && bs[l] in bs[l].Repr && bs[l].Repr <= repr && this !in bs[l].Repr
            && bs[l].orders.slots.Length == capacity)
      && (forall l, k :: l in bs && k in bs && l != k ==> bs[l].Repr !! bs[k].Repr)
    }

    lemma OneMore(bs: map<nat, OrderBook>, repr: set<object>, l: nat, b: OrderBook)
      requires Separate(bs, repr) && l !in bs && b.Repr !! repr && b in b.Repr && this !in b.Repr
      requires b.orders.slots.Length == capacity
      ensures var more := bs[l := b];
              && Separate(more, repr + b.Repr)
              && forall k :: k in more ==> this !in more[k].Repr && more[k] in more[k].Repr
    {
    }

    ghost predicate Valid()
      reads this, Repr
    {
      && Layout() && held.Keys == books.Keys
      && forall l :: l in books ==>
           books[l].Valid() && books[l].Sound() && books[l].Abs() == held[l] && held[l].maxLevels == maxLevels
    }

    ghost function Abs(): Feed
      reads this
    {
      Feed(maxLevels, held, count)
    }

    constructor (symbol: string, capacity: nat, maxLevels: nat, hash: nat -> nat)
      requires 0 < capacity < WORD32 && maxLevels * TICK <= WORD32
      ensures Valid() && fresh(Repr) && Abs() == Feed(maxLevels, map[], 0)
    {
      this.symbol, this.capacity, this.maxLevels, this.hash := symbol, capacity, maxLevels, hash;
      books, held, count, Repr := map[], map[], 0, {this};
    }

    /** A new book whose window is seeded from the symbol's first price. */
    method Open(price: nat) returns (b: OrderBook)
      requires Valid() && RoundDown(SeedBase(maxLevels, price)) + maxLevels * TICK <= WORD32
      ensures fresh(b.Repr) && b in b.Repr && b.Valid() && b.Sound() && b.orders.slots.Length == capacity
      ensures b.Abs() == Book(RoundDown(SeedBase(maxLevels, price)), maxLevels, map[], 0, NO_BID, NO_ASK)
    {
      hide BookOk, TopOk, OrderBook.Valid, OrderBook.Sound, OrderBook.Abs, SeedBase, RoundDown;
      b := new OrderBook(capacity, maxLevels, hash);
      b.Parts();
      b.Init(SeedBase(maxLevels, price));
      b.Parts();
    }

    /** The locate's book, created and seeded when it is the first. */
    method Ensure(locate: nat, price: nat)
      requires Valid()
      requires locate !in books ==> RoundDown(SeedBase(maxLevels, price)) + maxLevels * TICK <= WORD32
      modifies this
      ensures Valid() && fresh(Repr - old(Repr)) && locate in books && count == old(count)
      ensures Abs() == Ensured(old(Abs()), locate, price)
    {
      hide OrderBook.Valid, OrderBook.Sound, OrderBook.Abs, SeedBase, RoundDown;
      if locate !in books {
        var b := Open(price);
        Adopt(locate, b);
      }
    }

    method Adopt(locate: nat, b: OrderBook)
      requires Valid() && locate !in books && b.Repr !! Repr && b in b.Repr
      requires b.Valid() && b.Sound() && b.orders.slots.Length == capacity && b.Abs().maxLevels == maxLevels
      modifies this
      ensures Valid() && Repr == old(Repr) + b.Repr && count == old(count)
      ensures books == old(books)[locate := b] && held == old(held)[locate := b.Abs()]
    {
      hide OrderBook.Valid, OrderBook.Sound, OrderBook.Abs, Separate;
      Holdings();
      OneMore(books, Repr, locate, b);
      held := held[locate := b.Abs()];
      books := books[locate := b];
      Repr := Repr + b.Repr;
    }

    method CountEvent()
      requires Valid()
      modifies this`count
      ensures Valid() && count == old(count) + 1
    {
      hide OrderBook.Valid, OrderBook.Sound, OrderBook.Abs;
      count := count + 1;
    }

    lemma Holdings()
      requires Valid()
      ensures this in Repr && held.Keys == books.Keys
      ensures forall l :: l in books ==> books[l].Repr <= Repr && books[l].Sound() && books[l].Abs() == held[l]
    {
      hide OrderBook.Valid, OrderBook.Sound, OrderBook.Abs;
    }

    /** Applies one event; answers whether a book was touched, and the trade the event resolved. */
    method Apply(e: Event) returns (touched: bool, t: Trade)
      requires Valid() && LegalEvent(Abs(), symbol, e, capacity)
      modifies Repr
      ensures Valid() && fresh(Repr - old(Repr))
      ensures touched <==> Accepted(old(Abs()), symbol, e)
      ensures Abs() == FeedStep(old(Abs()), symbol, e)
      ensures t == EventTrade(old(Abs()), symbol, e)
    {
      hide Valid, Legal, Step, OrderBook.Valid, OrderBook.Sound, OrderBook.Abs, Ensured;
      t := NO_TRADE;
      Holdings();
      if e.AddEvent? {
        if e.stock != symbol {
          return false, t;
        }
        Ensure(e.locate, e.price);
      } else if e.locate !in books {
        return false, t;
      }
      Holdings();
      CountEvent();
      match e {
        case AddEvent(l, _, ref, side, price, shares) => t := Dispatch(l, Add(ref, side, price, shares));
        case BookEvent(l, m) => t := Dispatch(l, m);
        case HiddenTrade(_, price, shares, side) => t := Trade(price, shares, side);
        case CrossTrade(_, price, shares) => t := Trade(price, shares, Buy);
        case OtherEvent(_) =>
      }
      return true, t;
    }

    lemma Apart(l: nat)
      requires Layout() && l in books
      ensures this !in books[l].Repr && books[l] in books[l].Repr && books[l].orders.slots.Length == capacity
      ensures forall k :: k in books && k != l ==>
                books[k].Repr !! books[l].Repr && books[k] in books[k].Repr && this !in books[k].Repr
    {
    }

    method Dispatch(l: nat, m: Msg) returns (t: Trade)
      requires Valid() && l in books && l in held && Legal(held[l], m, capacity)
      modifies this`held, books[l].Repr
      ensures Valid() && count == old(count) && Repr == old(Repr) && t == TradeOf(old(held)[l], m)
      ensures Abs() == old(Abs()).(books := old(Abs()).books[l := Step(old(Abs()).books[l], m)])
    {
      hide Layout, Legal, Step, OrderBook.Valid, OrderBook.Sound, OrderBook.Abs;
      Apart(l);
      ghost var b := books[l].Abs();
      StepKeepsWindow(b, m);
      held := held[l := Step(b, m)];
      t := books[l].Apply(m);
      books[l].Parts();
    }
  }
}
