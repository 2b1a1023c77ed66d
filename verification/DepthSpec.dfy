/** What a walk of the best price levels must return. */
module DepthSpec {
  import opened Common
  import opened PriceLevels
  import opened BookSpec
  import opened BookSteps

  datatype Level = Level(price: nat, shares: nat, orderCount: nat)

  /** The entry of an occupied level. */
  function LevelEntry(base: nat, v: SideView, i: nat): Level
    requires i < |v.levels|
  {
    Level(base + i * TICK, v.levels[i].totalShares, v.levels[i].orderCount)
  }

  /** The level an entry's price names. */
  function IndexOfEntry(base: nat, e: Level): nat {
    if e.price < base then 0 else (e.price - base) / TICK
  }

  lemma EntryRoundTrip(base: nat, v: SideView, i: nat)
    requires i < |v.levels|
    ensures IndexOfEntry(base, LevelEntry(base, v, i)) == i
  {
  }

  /** Every entry is an occupied level. */
  ghost predicate AllOccupied(base: nat, v: SideView, out: seq<Level>) {
    forall k :: 0 <= k < |out| ==>
      var i := IndexOfEntry(base, out[k]);
      i in v.bits && i < |v.levels| && out[k] == LevelEntry(base, v, i)
  }

  /** Best price first, none repeated. */
  ghost predicate BestFirst(s: Side, out: seq<Level>) {
    forall a, b :: 0 <= a < b < |out| ==> Better(s, out[a].price, out[b].price)
  }

  /** No occupied level that is missing beats an entry, and none is missing unless the list is full. */
  ghost predicate NothingBetter(s: Side, base: nat, v: SideView, out: seq<Level>, max: int) {
    forall i :: i in v.bits && i < |v.levels| ==>
      || LevelEntry(base, v, i) in out
      || (|out| >= max && forall k :: 0 <= k < |out| ==> Better(s, out[k].price, base + i * TICK))
  }

  /** The best occupied levels in strict price order, at most max of them. */
  ghost predicate TopLevels(s: Side, base: nat, v: SideView, out: seq<Level>, max: int) {
    |out| <= Max(max, 0) && AllOccupied(base, v, out) && BestFirst(s, out) && NothingBetter(s, base, v, out, max)
  }

  /** The first entries of a deeper list are the shallower list. */
  lemma TopPrefix(s: Side, base: nat, v: SideView, out: seq<Level>, max: int, fewer: nat)
    requires TopLevels(s, base, v, out, max) && fewer <= max
    ensures TopLevels(s, base, v, if |out| < fewer then out else out[..fewer], fewer)
  {
    hide Better, IndexOfEntry;
    if |out| >= fewer {
      var cut := out[..fewer];
      assert AllOccupied(base, v, cut);
      forall i | i in v.bits && i < |v.levels|
        ensures LevelEntry(base, v, i) in cut || forall k :: 0 <= k < |cut| ==> Better(s, cut[k].price, base + i * TICK)
      {
        if LevelEntry(base, v, i) in out {
          var k :| 0 <= k < |out| && out[k] == LevelEntry(base, v, i);
          assert k < fewer ==> cut[k] == LevelEntry(base, v, i);
        }
      }
    }
  }

  /** The walk lists as many levels as there are, up to the limit. */
  lemma TopCount(s: Side, base: nat, v: SideView, out: seq<Level>, max: nat)
    requires TopLevels(s, base, v, out, max) && forall i :: i in v.bits ==> i < |v.levels|
    ensures |out| == Min(max, |v.bits|)
  {
    var ix := seq(|out|, k requires 0 <= k < |out| => IndexOfEntry(base, out[k]));
    var shown := set k | 0 <= k < |out| :: ix[k];
    assert forall a, b :: 0 <= a < b < |out| ==> ix[a] != ix[b] by {
      assert forall k :: 0 <= k < |out| ==> out[k].price == base + ix[k] * TICK;
    }
    DistinctSize(ix, shown);
    assert shown <= v.bits;
    SubsetSize(shown, v.bits);
    if |out| < max {
      forall i | i in v.bits
        ensures i in shown
      {
        var k :| 0 <= k < |out| && out[k] == LevelEntry(base, v, i);
        EntryRoundTrip(base, v, i);
        assert ix[k] == i;
      }
      assert shown == v.bits;
    }
  }

  lemma DistinctSize(s: seq<nat>, all: set<nat>)
    requires forall a, b :: 0 <= a < b < |s| ==> s[a] != s[b]
    requires all == set k | 0 <= k < |s| :: s[k]
    ensures |all| == |s|
  {
    if s == [] {
    } else {
      var front := s[..|s| - 1];
      var rest := set k | 0 <= k < |front| :: front[k];
      DistinctSize(front, rest);
      assert all == rest + {s[|s| - 1]};
    }
  }

  /** A walk has listed every level better than p, and p is the next one or the sentinel. */
  ghost predicate Walking(s: Side, base: nat, v: SideView, list: seq<Level>, p: nat) {
    && AllOccupied(base, v, list) && BestFirst(s, list)
    && (p != Sentinel(s) ==> exists i :: i in v.bits && i < |v.levels| && p == base + i * TICK)
    && (p != Sentinel(s) ==> forall k :: 0 <= k < |list| ==> Better(s, list[k].price, p))
    && forall j :: j in v.bits && j < |v.levels| ==>
         LevelEntry(base, v, j) in list || (p != Sentinel(s) && !Better(s, base + j * TICK, p))
  }

  lemma WalkStep(s: Side, base: nat, v: SideView, list: seq<Level>, i: nat, p: nat)
    requires Walking(s, base, v, list, base + i * TICK) && i in v.bits && i < |v.levels|
    requires base + i * TICK != Sentinel(s) && NextBest(s, base, v.bits, i, p)
    requires forall j :: j in v.bits ==> j < |v.levels| && 0 < base + j * TICK < NO_ASK
    ensures Walking(s, base, v, list + [LevelEntry(base, v, i)], p)
  {
    EntryRoundTrip(base, v, i);
    var longer := list + [LevelEntry(base, v, i)];
    assert longer[|list|] == LevelEntry(base, v, i);
    forall j | j in v.bits && j < |v.levels|
      ensures LevelEntry(base, v, j) in longer || (p != Sentinel(s) && !Better(s, base + j * TICK, p))
    {
      if LevelEntry(base, v, j) in list {
        var k :| 0 <= k < |list| && list[k] == LevelEntry(base, v, j);
        assert longer[k] == LevelEntry(base, v, j);
      }
    }
  }

  lemma WalkEnd(s: Side, base: nat, v: SideView, list: seq<Level>, p: nat, max: int)
    requires Walking(s, base, v, list, p) && |list| <= Max(max, 0) && (|list| >= max || p == Sentinel(s))
    ensures TopLevels(s, base, v, list, max)
  {
  }

  /** The level a walk stands on. */
  lemma WalkLevel(s: Side, base: nat, v: SideView, list: seq<Level>, p: nat) returns (i: nat)
    requires Walking(s, base, v, list, p) && p != Sentinel(s)
    requires base % TICK == 0 && base + |v.levels| * TICK <= WORD32
    ensures i in v.bits && i < |v.levels| && p == base + i * TICK && IndexOf(base, p) == i
    ensures p % TICK == 0
  {
    i :| i in v.bits && i < |v.levels| && p == base + i * TICK;
    InRangeAt(base, |v.levels|, p);
  }

  // What a walk lists, whatever the prices.

  /**
   The occupied levels that a walk can reach from the best price: not its own again, and not a
   level at tick 0, which reads as the end of the side.
   */
  function Beyond(base: nat, v: SideView): SideView {
    v.(bits := set i | i in v.bits && i != IndexOf(base, v.best) && 0 < base + i * TICK)
  }

  /** The best price with what its level shows, then the best occupied levels beyond it. */
  ghost predicate Walked(s: Side, base: nat, v: SideView, out: seq<Level>, max: int) {
    if v.best == Sentinel(s) || max <= 0 then out == []
    else
      out != [] && WalkHead(base, v, out[0]) && TopLevels(s, base, Beyond(base, v), out[1..], max - 1)
  }

  /** The entry of the best price. */
  ghost predicate WalkHead(base: nat, v: SideView, e: Level) {
    var i := IndexOf(base, v.best);
    i < |v.levels| && e == Level(v.best, v.levels[i].totalShares, v.levels[i].orderCount)
  }

  /** A walk starts in the window. */
  lemma TopInRange(v: BookView, s: Side)
    requires BookOk(v, -1, -1) && TopOk(v)
    ensures var best := SideOf(v, s).best;
            && best < WORD32
            && (best != Sentinel(s) ==>
                  InRange(v.base, |v.bid.levels|, best) && v.base + IndexOf(v.base, best) * TICK == RoundDown(best))
  {
    hide SideOk;
    if SideOf(v, s).best != Sentinel(s) {
      LevelIndex(v.base, |v.bid.levels|, SideOf(v, s).best);
    }
  }

  /** Its hops stay in the window. */
  lemma HopFacts(v: BookView, s: Side, i: nat, p: nat)
    requires BookOk(v, -1, -1) && NextBest(s, v.base, SideOf(v, s).bits, i, p)
    ensures p < WORD32 && (p != Sentinel(s) ==> InRange(v.base, |v.bid.levels|, p))
  {
    hide LevelsMatch;
    if p != Sentinel(s) {
      var j :| j in SideOf(v, s).bits && p == v.base + j * TICK;
      LevelIndex(v.base, |v.bid.levels|, p);
    }
  }

  lemma BeyondFacts(v: BookView, s: Side)
    requires BookOk(v, -1, -1)
    ensures var w := Beyond(v.base, SideOf(v, s));
            forall j :: j in w.bits ==> j < |w.levels| && 0 < v.base + j * TICK < NO_ASK
  {
    hide LevelsMatch;
  }

  /** The first hop. */
  lemma WalkStart(v: BookView, s: Side, p: nat)
    requires BookOk(v, -1, -1) && TopOk(v) && SideOf(v, s).best != Sentinel(s)
    requires NextBest(s, v.base, SideOf(v, s).bits, IndexOf(v.base, SideOf(v, s).best), p)
    ensures Walking(s, v.base, Beyond(v.base, SideOf(v, s)), [], p)
  {
    hide LevelsMatch, IndexOf, InRange, RoundDown;
    TopInRange(v, s);
    BeyondFacts(v, s);
    LastTick(SideOf(v, s).best);
    var w, i := SideOf(v, s), IndexOf(v.base, SideOf(v, s).best);
    assert forall j :: j in w.bits && j != i ==> if s == Buy then j < i else j > i;
    if p != Sentinel(s) {
      var j :| j in w.bits && (if s == Buy then j < i else j > i) && p == v.base + j * TICK;
      assert j in Beyond(v.base, w).bits;
    }
  }

  lemma LastTick(p: nat)
    ensures RoundDown(p) <= p < RoundDown(p) + TICK
  {
  }

  /** A hop among all the bits is one among the reachable ones. */
  lemma NextBeyond(v: BookView, s: Side, i: nat, p: nat)
    requires BookOk(v, -1, -1) && TopOk(v) && SideOf(v, s).best != Sentinel(s)
    requires NextBest(s, v.base, SideOf(v, s).bits, i, p) && i in Beyond(v.base, SideOf(v, s)).bits
    ensures NextBest(s, v.base, Beyond(v.base, SideOf(v, s)).bits, i, p)
  {
    hide LevelsMatch, IndexOf, InRange, RoundDown;
    TopInRange(v, s);
    LastTick(SideOf(v, s).best);
    var w, at := SideOf(v, s), IndexOf(v.base, SideOf(v, s).best);
    assert if s == Buy then i < at else i > at;
    if p != Sentinel(s) {
      var j :| j in w.bits && (if s == Buy then j < i else j > i) && p == v.base + j * TICK;
      assert j in Beyond(v.base, w).bits;
    }
  }

  /** One turn of the walk: an entry for the price it stands on, and the hop to the next. */
  lemma WalkOn(v: BookView, s: Side, sofar: seq<Level>, more: seq<Level>, at: nat, p: nat)
    requires BookOk(v, -1, -1) && TopOk(v) && at != Sentinel(s) && SideOf(v, s).best != Sentinel(s)
    requires |more| == |sofar| + 1 && more[..|sofar|] == sofar
    requires IndexOf(v.base, at) < |v.bid.levels| && NextBest(s, v.base, SideOf(v, s).bits, IndexOf(v.base, at), p)
    requires var i, w := IndexOf(v.base, at), SideOf(v, s);
             i < |w.levels| && more[|sofar|] == Level(at, w.levels[i].totalShares, w.levels[i].orderCount)
    requires sofar == [] ==> at == SideOf(v, s).best
    requires sofar != [] ==> WalkHead(v.base, SideOf(v, s), sofar[0])
    requires sofar != [] ==> Walking(s, v.base, Beyond(v.base, SideOf(v, s)), sofar[1..], at)
    ensures WalkHead(v.base, SideOf(v, s), more[0])
    ensures Walking(s, v.base, Beyond(v.base, SideOf(v, s)), more[1..], p)
  {
    hide BookOk, TopOk, Walking, NextBest, Beyond, IndexOf;
    var b := Beyond(v.base, SideOf(v, s));
    WindowFacts(v, -1, -1);
    BeyondFacts(v, s);
    SameLevels(v, s);
    if sofar == [] {
      WalkStart(v, s, p);
      assert more[1..] == [];
    } else {
      assert more[0] == sofar[0];
      var i := WalkLevel(s, v.base, b, sofar[1..], at);
      NextBeyond(v, s, i, p);
      WalkStep(s, v.base, b, sofar[1..], i, p);
      assert more[1..] == sofar[1..] + [LevelEntry(v.base, b, i)];
    }
  }

  lemma SameLevels(v: BookView, s: Side)
    requires BookOk(v, -1, -1)
    ensures Beyond(v.base, SideOf(v, s)).levels == SideOf(v, s).levels && |SideOf(v, s).levels| == |v.bid.levels|
  {
  }

  // Whole ticks.

  /** Whole ticks alone rest, and the cached prices are the best ones. */
  ghost predicate WholeTop(v: BookView) {
    Whole(v.orders) && v.bid.best == Best(v.orders, Buy) && v.ask.best == Best(v.orders, Sell)
  }

  /** Of whole ticks, the best price is that of the best set bit, and every set bit has a positive price. */
  lemma BitPrices(v: BookView, s: Side)
    requires BookOk(v, -1, -1) && WholeTop(v)
    ensures v.base % TICK == 0 && v.base + |SideOf(v, s).levels| * TICK <= WORD32
    ensures var w := SideOf(v, s);
            && TopMatches(s, v.base, w.bits, w.best)
            && forall i :: i in w.bits ==> i < |w.levels| && 0 < v.base + i * TICK < NO_ASK
  {
    hide LevelsMatch, LevelFor, IndexOf, InRange;
    var w := SideOf(v, s);
    forall i | i in w.bits
      ensures i < |w.levels| && 0 < v.base + i * TICK < NO_ASK && !Better(s, v.base + i * TICK, w.best)
    {
      var k := RestingAt(v.orders, s, v.base, w.levels, i);
    }
    if w.best != Sentinel(s) {
      var k :| k in v.orders && v.orders[k].side == s && v.orders[k].price == w.best;
      RestingLevel(v, -1, -1, k);
      BitOf(v.orders, s, v.base, w, k, IndexOf(v.base, w.best));
    }
  }

  /** With whole ticks a walk lists the best levels. */
  lemma WalkedIsTop(v: BookView, s: Side, out: seq<Level>, max: int)
    requires BookOk(v, -1, -1) && TopOk(v) && WholeTop(v) && Walked(s, v.base, SideOf(v, s), out, max)
    ensures TopLevels(s, v.base, SideOf(v, s), out, max)
  {
    hide BookOk, WholeTop, TopLevels, IndexOf, InRange;
    BitPrices(v, s);
    TopInRange(v, s);
    var w := SideOf(v, s);
    if out != [] {
      HeadAndRest(s, v.base, w, out, max);
    } else {
      NothingListed(s, v.base, w, max);
    }
  }

  lemma NothingListed(s: Side, base: nat, v: SideView, max: int)
    requires max <= 0 || v.best == Sentinel(s)
    requires TopMatches(s, base, v.bits, v.best) && forall i :: i in v.bits ==> 0 < base + i * TICK < NO_ASK
    ensures TopLevels(s, base, v, [], max)
  {
  }

  lemma HeadAndRest(s: Side, base: nat, v: SideView, out: seq<Level>, max: int)
    requires v.best != Sentinel(s) && max > 0 && out != []
    requires TopMatches(s, base, v.bits, v.best) && base + IndexOf(base, v.best) * TICK == RoundDown(v.best)
    requires forall i :: i in v.bits ==> i < |v.levels| && 0 < base + i * TICK < NO_ASK
    requires WalkHead(base, v, out[0])
    requires base % TICK == 0 && TopLevels(s, base, Beyond(base, v), out[1..], max - 1)
    ensures TopLevels(s, base, v, out, max)
  {
    hide IndexOf;
    var i, rest := IndexOf(base, v.best), out[1..];
    var j :| j in v.bits && v.best == base + j * TICK;
    assert i == j && out[0] == LevelEntry(base, v, i);
    EntryRoundTrip(base, v, i);
    assert forall k :: 1 <= k < |out| ==> out[k] == rest[k - 1];
    forall k | 0 <= k < |rest|
      ensures Better(s, out[0].price, rest[k].price)
    {
      assert IndexOfEntry(base, rest[k]) in Beyond(base, v).bits;
    }
    forall m | m in v.bits && m < |v.levels| && LevelEntry(base, v, m) !in out
      ensures |out| >= max && forall k :: 0 <= k < |out| ==> Better(s, out[k].price, base + m * TICK)
    {
      assert m in Beyond(base, v).bits;
      assert LevelEntry(base, Beyond(base, v), m) !in rest;
    }
  }
}
