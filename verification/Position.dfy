/** Average-cost position keeping: a fill reduces the open position first and opens any remainder. */
module Positions {
  import opened Common

  // cost is the signed sum of px * qty of the open position, realized in the same tick-lots.
  datatype Position = Position(qty: int, cost: int, realized: int, fees: int, bought: int, sold: int, mark2: int,
                               fills: nat)

  const FLAT := Position(0, 0, 0, 0, 0, 0, 0, 0)

  datatype Fill = Fill(side: Side, px: int, qty: int)

  /** The reducing half of a fill of `rest` signed lots against an opposite position; rest shrinks too. */
  function Reduced(p: Position, px: int, rest: int): (Position, int)
    requires p.qty != 0
  {
    var open := Abs(p.qty);
    var r := Min(Abs(rest), open);
    var removed := TruncDiv(p.cost * r, open);
    var sgn := if p.qty > 0 then 1 else -1;
    var qty := p.qty + if p.qty > 0 then -r else r;
    (p.(realized := p.realized + sgn * (px * r) - removed,
        cost := if qty == 0 then 0 else p.cost - removed,
        qty := qty),
     rest + if rest > 0 then -r else r)
  }

  /** The opening half. */
  function Opened(p: Position, px: int, rest: int): Position {
    if rest == 0 then p else p.(cost := p.cost + px * rest, qty := p.qty + rest)
  }

  function Signed(f: Fill): int {
    if f.side == Buy then f.qty else -f.qty
  }

  function Filled(p: Position, f: Fill): Position {
    var rest := Signed(f);
    var counted := if f.side == Buy then p.(bought := p.bought + f.qty, fills := p.fills + 1)
                   else p.(sold := p.sold + f.qty, fills := p.fills + 1);
    if p.qty != 0 && (p.qty > 0) != (rest > 0) then
      var (q, left) := Reduced(counted, f.px, rest);
      Opened(q, f.px, left)
    else Opened(counted, f.px, rest)
  }

  function FilledAll(p: Position, fs: seq<Fill>): Position {
    if fs == [] then p else Filled(FilledAll(p, fs[..|fs| - 1]), fs[|fs| - 1])
  }

  /** Net cash of the fills, in tick-lots: sales less purchases. */
  function CashFlow(fs: seq<Fill>): int {
    if fs == [] then 0
    else
      var f := fs[|fs| - 1];
      CashFlow(fs[..|fs| - 1]) + if f.side == Buy then -(f.px * f.qty) else f.px * f.qty
  }

  /** Average entry price: 0 when flat. */
  function AvgPx(p: Position): int {
    if p.qty == 0 then 0 else if p.qty > 0 then TruncDiv(p.cost, p.qty) else TruncDiv(-p.cost, -p.qty)
  }

  lemma DivideOut(x: int, y: int, o: int)
    requires o > 0 && x * o < y * o + o
    ensures x <= y
  {
    assert x >= y + 1 ==> x * o >= (y + 1) * o;
  }

  lemma Distribute(x: int, a: int, b: int)
    ensures x * (a + b) == x * a + x * b
    ensures x * (a - b) == x * a - x * b
  {
  }

  lemma DivExact(c: int, o: int)
    requires o > 0
    ensures TruncDiv(c * o, o) == c
  {
    var q := TruncDiv(c * o, o);
    if c * o >= 0 {
      DivideOut(c, q, o);
      DivideOut(q, c, o);
    } else {
      DivideOut(q, c, o);
      DivideOut(c, q, o);
    }
  }

  /** Lots that a fill of `rest` closes. */
  function Closes(p: Position, rest: int): nat {
    Min(Abs(rest), Abs(p.qty))
  }

  /** Reducing realizes the cash of the lots closed, exactly: a full close removes the whole cost. */
  lemma ReducedExact(p: Position, px: int, rest: int)
    requires p.qty != 0
    ensures var (q, left) := Reduced(p, px, rest);
            var r := Closes(p, rest);
            && q.realized - q.cost == p.realized - p.cost + (if p.qty > 0 then px * r else -(px * r))
            && q.qty == (if p.qty > 0 then p.qty - r else p.qty + r)
            && left == (if rest > 0 then rest - r else rest + r)
            && q.bought == p.bought && q.sold == p.sold && (q.qty == 0 ==> q.cost == 0)
  {
    hide TruncDiv;
    var r := Closes(p, rest);
    if r == Abs(p.qty) {
      DivExact(p.cost, r);
    }
    assert 1 * (px * r) == px * r && -1 * (px * r) == -(px * r);
  }

  /** A fill changes realized - cost by its cash exactly, whatever the division rounds. */
  lemma FillIsCashExact(p: Position, f: Fill)
    requires f.qty >= 0
    ensures var q := Filled(p, f);
            && q.realized - q.cost == p.realized - p.cost + (if f.side == Buy then -(f.px * f.qty) else f.px * f.qty)
            && q.qty == p.qty + Signed(f)
            && q.bought - q.sold == p.bought - p.sold + Signed(f)
            && (q.qty == 0 && (p.qty == 0 ==> p.cost == 0) ==> q.cost == 0)
  {
    hide Reduced;
    var rest := Signed(f);
    Distribute(f.px, rest, 0);
    if p.qty != 0 && (p.qty > 0) != (rest > 0) {
      var counted := if f.side == Buy then p.(bought := p.bought + f.qty, fills := p.fills + 1)
                     else p.(sold := p.sold + f.qty, fills := p.fills + 1);
      var r := Closes(p, rest);
      ReducedExact(counted, f.px, rest);
      Distribute(f.px, rest, r);
      assert f.px * -f.qty == -(f.px * f.qty);
    } else {
      assert f.px * -f.qty == -(f.px * f.qty);
    }
  }

  /**
   For every sequence of fills from flat, flips through zero included: realized - cost is the
   net cash flow with no rounding drift, qty is bought - sold, and a flat position has no cost.
   */
  lemma {:induction false} AverageCostExact(fs: seq<Fill>)
    requires forall f :: f in fs ==> f.qty >= 0
    ensures var p := FilledAll(FLAT, fs);
            && p.realized - p.cost == CashFlow(fs) && p.qty == p.bought - p.sold && (p.qty == 0 ==> p.cost == 0)
  {
    if fs != [] {
      AverageCostExact(fs[..|fs| - 1]);
      FillIsCashExact(FilledAll(FLAT, fs[..|fs| - 1]), fs[|fs| - 1]);
    }
  }

  /** The cost of an open position lies between its lots at the lowest and at the highest price. */
  ghost predicate CostWithin(p: Position, lo: int, hi: int) {
    if p.qty > 0 then Within(p.cost, p.qty, lo, hi)
    else if p.qty < 0 then Within(-p.cost, -p.qty, lo, hi)
    else p.cost == 0
  }

  ghost predicate Within(c: int, n: nat, lo: int, hi: int) {
    lo * n <= c <= hi * n
  }

  /** Removing r of `open` lots at truncated average cost leaves the rest inside the same prices. */
  lemma RemovalKeepsBand(c: int, r: nat, open: nat, lo: int, hi: int)
    requires r <= open && 0 < open && lo * open <= c <= hi * open
    ensures lo * (open - r) <= c - TruncDiv(c * r, open) <= hi * (open - r)
  {
    hide TruncDiv;
    var m, k := TruncDiv(c * r, open), open - r;
    Distribute(c, open, r);
    Distribute(open, c, m);
    assert (c - m) * open == c * k + (c * r - m * open);
    ScaleBand(c, open, k, lo, hi);
    DivideOut(c - m, hi * k, open);
    DivideOut(lo * k, c - m, open);
  }

  lemma ScaleBand(c: int, open: nat, k: nat, lo: int, hi: int)
    requires lo * open <= c <= hi * open
    ensures (lo * k) * open <= c * k <= (hi * k) * open
  {
    assert (lo * open) * k <= c * k <= (hi * open) * k;
    assert (lo * open) * k == (lo * k) * open;
    assert (hi * open) * k == (hi * k) * open;
  }

  /** An average of lots priced inside a band, rounded toward zero, is inside it. */
  lemma AverageInBand(c: int, n: nat, lo: int, hi: int)
    requires n > 0 && lo * n <= c <= hi * n
    ensures lo <= TruncDiv(c, n) <= hi
  {
    var q := TruncDiv(c, n);
    if c >= 0 {
      assert lo * n < (q + 1) * n && q * n <= hi * n;
      DivideOut(lo, q, n);
      DivideOut(q, hi, n);
    } else {
      assert lo * n <= q * n && (q - 1) * n < hi * n;
      DivideOut(lo, q, n);
      DivideOut(q, hi, n);
    }
  }

  lemma OpenKeepsBand(p: Position, px: int, rest: int, lo: int, hi: int)
    requires CostWithin(p, lo, hi) && lo <= px <= hi
    requires (p.qty >= 0 && rest >= 0) || (p.qty <= 0 && rest <= 0)
    ensures CostWithin(Opened(p, px, rest), lo, hi)
  {
    hide Within;
    if rest > 0 {
      BandAdds(p.cost, p.qty, px, rest, lo, hi);
    } else if rest < 0 {
      BandAdds(0 - p.cost, 0 - p.qty, px, 0 - rest, lo, hi);
      assert px * (0 - rest) == 0 - px * rest;
    }
  }

  lemma BandAdds(c: int, n: nat, px: int, more: nat, lo: int, hi: int)
    requires (n == 0 && c == 0) || Within(c, n, lo, hi)
    requires lo <= px <= hi
    ensures Within(c + px * more, n + more, lo, hi)
  {
    Distributes(lo, n, more);
    Distributes(hi, n, more);
    Ordered(lo, px, more);
    Ordered(px, hi, more);
  }

  lemma Distributes(x: int, n: int, m: int)
    ensures x * (n + m) == x * n + x * m
  {
  }

  lemma Ordered(x: int, y: int, m: nat)
    requires x <= y
    ensures x * m <= y * m
  {
  }

  lemma FillKeepsBand(p: Position, f: Fill, lo: int, hi: int)
    requires CostWithin(p, lo, hi) && lo <= f.px <= hi && f.qty >= 0
    ensures CostWithin(Filled(p, f), lo, hi)
  {
    hide Reduced, Opened;
    var rest := Signed(f);
    var counted := if f.side == Buy then p.(bought := p.bought + f.qty, fills := p.fills + 1)
                   else p.(sold := p.sold + f.qty, fills := p.fills + 1);
    if p.qty != 0 && (p.qty > 0) != (rest > 0) {
      ReduceKeepsBand(counted, f.px, rest, lo, hi);
      var (q, left) := Reduced(counted, f.px, rest);
      OpenKeepsBand(q, f.px, left, lo, hi);
    } else {
      OpenKeepsBand(counted, f.px, rest, lo, hi);
    }
  }

  lemma ReduceKeepsBand(p: Position, px: int, rest: int, lo: int, hi: int)
    requires CostWithin(p, lo, hi) && p.qty != 0 && (p.qty > 0) != (rest > 0)
    ensures var (q, left) := Reduced(p, px, rest);
            CostWithin(q, lo, hi) && ((q.qty >= 0 && left >= 0) || (q.qty <= 0 && left <= 0))
  {
    hide TruncDiv;
    var r := Closes(p, rest);
    if p.qty > 0 {
      RemovalKeepsBand(p.cost, r, p.qty, lo, hi);
    } else {
      RemovalKeepsBand(-p.cost, r, -p.qty, lo, hi);
      assert -p.cost * r == -(p.cost * r);
      DivNegates(p.cost * r, -p.qty);
    }
  }

  lemma DivNegates(x: int, o: nat)
    requires o > 0
    ensures TruncDiv(-x, o) == -TruncDiv(x, o)
  {
  }

  /** For every sequence of fills the average price of the open position lies within the prices filled at. */
  lemma {:induction false} AvgPxWithinFills(fs: seq<Fill>, lo: int, hi: int)
    requires forall f :: f in fs ==> f.qty >= 0 && lo <= f.px <= hi
    ensures CostWithin(FilledAll(FLAT, fs), lo, hi)
    ensures var p := FilledAll(FLAT, fs); p.qty != 0 ==> lo <= AvgPx(p) <= hi
  {
    hide Filled, TruncDiv;
    if fs != [] {
      var front, f := fs[..|fs| - 1], fs[|fs| - 1];
      assert f in fs;
      AvgPxWithinFills(front, lo, hi);
      FillKeepsBand(FilledAll(FLAT, front), f, lo, hi);
    }
    var p := FilledAll(FLAT, fs);
    if p.qty > 0 {
      AverageInBand(p.cost, p.qty, lo, hi);
    } else if p.qty < 0 {
      AverageInBand(-p.cost, -p.qty, lo, hi);
    }
  }

  /** Lots of the fills on one side. */
  function LotsOn(fs: seq<Fill>, side: Side): int {
    if fs == [] then 0
    else LotsOn(fs[..|fs| - 1], side) + if fs[|fs| - 1].side == side then fs[|fs| - 1].qty else 0
  }

  lemma FillTallies(p: Position, f: Fill)
    ensures var q := Filled(p, f);
            && q.bought == p.bought + (if f.side == Buy then f.qty else 0)
            && q.sold == p.sold + (if f.side == Sell then f.qty else 0)
            && q.fills == p.fills + 1
  {
    hide TruncDiv;
  }

  /** Lots bought, lots sold and fills are each counted once. */
  lemma {:induction false} TalliesExact(fs: seq<Fill>)
    ensures var p := FilledAll(FLAT, fs);
            p.bought == LotsOn(fs, Buy) && p.sold == LotsOn(fs, Sell) && p.fills == |fs|
  {
    hide Filled;
    if fs != [] {
      TalliesExact(fs[..|fs| - 1]);
      FillTallies(FilledAll(FLAT, fs[..|fs| - 1]), fs[|fs| - 1]);
    }
  }
}
