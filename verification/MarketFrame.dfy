/** Core's book snapshot and the exec feed frame built from it. */
module MarketFrame {
  import opened Common
  import opened PriceLevels
  import opened BookSpec
  import opened BookSteps
  import opened DepthSpec
  import opened OrderBookModule

  const EMPTY_BID: int := 0
  const EMPTY_ASK: int := 0x7FFF_FFFF_FFFF_FFFF  // INT64_MAX

  /** The frame builder's copy loop. */
  method CopyLevels(to: array<Level>, from: array<Level>, n: nat)
    requires to != from && n <= to.Length && n <= from.Length
    modifies to
    ensures to[..n] == from[..n]
  {
    for i := 0 to n
      invariant to[..i] == from[..i]
    {
      to[i] := from[i];
    }
  }

  class BookSnapshot {
    var eventSeq: nat
    var bestBid: nat
    var bestAsk: nat
    var nb: nat
    var na: nat
    const bids: array<Level>
    const asks: array<Level>

    constructor (depth: nat)
      ensures fresh(bids) && fresh(asks) && bids.Length == asks.Length == depth && bids != asks
    {
      bids := new Level[depth](_ => Level(0, 0, 0));
      asks := new Level[depth](_ => Level(0, 0, 0));
      eventSeq, bestBid, bestAsk, nb, na := 0, 0, 0, 0, 0;
    }

    /** The snapshot shows the book of the view: its cached prices and the walks from them to full depth. */
    ghost predicate Shows(v: BookView)
      reads this, bids, asks
    {
      && bids.Length == asks.Length && bestBid == v.bid.best && bestAsk == v.ask.best
      && nb <= bids.Length && Walked(Buy, v.base, v.bid, bids[..nb], bids.Length)
      && na <= asks.Length && Walked(Sell, v.base, v.ask, asks[..na], asks.Length)
    }

    /** Copies the cached prices and walks both sides. */
    method Capture(book: OrderBook, seqNo: nat)
      requires book.Valid() && bids != asks && bids.Length == asks.Length
      requires this !in book.Repr && bids !in book.Repr && asks !in book.Repr
      modifies this, bids, asks
      ensures book.Valid() && book.View() == old(book.View()) && Shows(book.View()) && eventSeq == seqNo
    {
      hide BookOk, TopOk, Walked, PriceLevelArray.Valid;
      eventSeq := seqNo;
      bestBid := book.bestBid;
      bestAsk := book.bestAsk;
      nb := book.TopBids(bids, bids.Length);
      na := book.TopAsks(asks, asks.Length);
    }
  }

  datatype Flags = Flags(twoSided: bool, feedReset: bool, lastInBatch: bool, cross: bool)

  // When the triggering event happened, and when it was read.
  datatype Stamp = Stamp(time: int, tscIn: int)

  class MarketUpdate {
    var eventSeq: nat
    var eventTime: int
    var tscIn: int
    var instrument: nat
    var bestBid: int
    var bestAsk: int
    var trade: Trade
    var flags: Flags
    var nb: nat
    var na: nat
    const bids: array<Level>
    const asks: array<Level>

    constructor (depth: nat)
      ensures fresh(bids) && fresh(asks) && bids.Length == asks.Length == depth && bids != asks
    {
      bids := new Level[depth](_ => Level(0, 0, 0));
      asks := new Level[depth](_ => Level(0, 0, 0));
      eventSeq, bestBid, bestAsk, nb, na := 0, 0, 0, 0, 0;
      trade, flags := NO_TRADE, Flags(false, false, false, false);
      eventTime, tscIn, instrument := 0, 0, 0;
    }

    /** The frame shows the book: the walks to the feed's depth, headed by the cached prices. */
    ghost predicate Frames(v: BookView)
      reads this, bids, asks
    {
      && nb <= bids.Length && SideFrames(Buy, v, bids[..nb], bids.Length, bestBid)
      && na <= asks.Length && SideFrames(Sell, v, asks[..na], asks.Length, bestAsk)
      && (flags.twoSided <==> v.bid.best != NO_BID && v.ask.best != NO_ASK)
    }

    method CopyHeader(seqNo: nat, e: Stamp, t: Trade, inst: nat)
      modifies this`eventSeq, this`eventTime, this`tscIn, this`trade, this`instrument
      ensures eventSeq == seqNo && eventTime == e.time && tscIn == e.tscIn && trade == t && instrument == inst
    {
      eventSeq, eventTime, tscIn, trade, instrument := seqNo, e.time, e.tscIn, t, inst;
    }

    /** Builds a frame in place; levels of an earlier frame may linger past nb and na. */
    method Build(snap: BookSnapshot, ghost v: BookView, e: Stamp, t: Trade, inst: nat, reset: bool, isCross: bool)
      requires snap.Shows(v)
      requires bids != asks && {bids, asks} !! {snap.bids, snap.asks} && bids.Length == asks.Length
      requires 0 < bids.Length <= snap.bids.Length
      modifies this, bids, asks
      ensures Frames(v) && eventSeq == snap.eventSeq && trade == t && instrument == inst
      ensures eventTime == e.time && tscIn == e.tscIn
      ensures flags.feedReset == reset && flags.lastInBatch && flags.cross == isCross
    {
      hide Walked, SideFrames;
      CopyHeader(snap.eventSeq, e, t, inst);
      bestBid := if snap.nb > 0 then snap.bestBid else EMPTY_BID;
      bestAsk := if snap.na > 0 then snap.bestAsk else EMPTY_ASK;
      nb := if snap.nb < bids.Length then snap.nb else bids.Length;
      na := if snap.na < asks.Length then snap.na else asks.Length;
      flags := Flags(nb > 0 && na > 0, reset, true, isCross);
      CutFrames(v, Buy, snap.bids[..snap.nb], snap.bids.Length, bids.Length);
      CutFrames(v, Sell, snap.asks[..snap.na], snap.asks.Length, asks.Length);
      CutTwice(snap.bids[..], snap.nb, nb);
      CutTwice(snap.asks[..], snap.na, na);
      CopyLevels(bids, snap.bids, nb);
      CopyLevels(asks, snap.asks, na);
    }
  }

  lemma CutTwice(s: seq<Level>, n: nat, m: nat)
    requires m <= n <= |s|
    ensures s[..n][..m] == s[..m]
  {
  }

  function NoPrice(s: Side): int {
    if s == Buy then EMPTY_BID else EMPTY_ASK
  }

  /** A frame's side: a walk to its depth, and the price that heads it or the empty sentinel. */
  ghost predicate SideFrames(s: Side, v: BookView, list: seq<Level>, depth: nat, best: int) {
    && Walked(s, v.base, SideOf(v, s), list, depth)
    && (list == [] ==> best == NoPrice(s)) && (list != [] ==> best == list[0].price == SideOf(v, s).best)
  }

  /** The deep walk cut to the feed's depth frames the side, and lists something just when the side has a price. */
  lemma CutFrames(v: BookView, s: Side, deep: seq<Level>, depth: nat, fewer: nat)
    requires Walked(s, v.base, SideOf(v, s), deep, depth) && 0 < fewer <= depth
    ensures SideFrames(s, v, deep[..Min(|deep|, fewer)], fewer, if |deep| > 0 then SideOf(v, s).best else NoPrice(s))
    ensures |deep| > 0 <==> SideOf(v, s).best != Sentinel(s)
  {
    hide TopLevels;
    if deep != [] {
      var w, cut := SideOf(v, s), deep[..Min(|deep|, fewer)];
      TopPrefix(s, v.base, Beyond(v.base, w), deep[1..], depth - 1, fewer - 1);
      assert cut[1..] == if |deep[1..]| < fewer - 1 then deep[1..] else deep[1..][..fewer - 1];
    }
  }

  /** With whole ticks a frame's side is the best levels, empty just when no order rests. */
  lemma WholeFrames(v: BookView, s: Side, list: seq<Level>, depth: nat, best: int)
    requires BookOk(v, -1, -1) && TopOk(v) && WholeTop(v) && SideFrames(s, v, list, depth, best) && depth > 0
    ensures TopLevels(s, v.base, SideOf(v, s), list, depth) && (list == [] <==> NoneOn(v.orders, s))
  {
    hide BookOk, TopLevels, Beyond;
    WalkedIsTop(v, s, list, depth);
    if NoneOn(v.orders, s) {
      assert Best(v.orders, s) == Sentinel(s);
    }
  }
}
