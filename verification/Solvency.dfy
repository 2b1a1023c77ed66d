/**
 Spot-only solvency over whole runs: what is reserved never exceeds what is owned. A replace is
 checked against the leaves of the moment but locks what is left when the venue answers it, so
 what the free funds must cover is the worst that answering the replaces in flight may lock.
 That is exactly what no later behaviour of the venue can overdraw, and exactly the requests
 that it leaves funds for keep it so. The gate's own check leaves them as long as nothing else
 draws on an asset while a replace on it is in flight and the venue does not fill the order first.
 */
module Solvency {
  import opened Common
  import opened OrderTypes
  import opened Positions
  import opened AccountModule
  import opened Engine
  import opened LegalRuns
  import opened Reservations

  // Whether the venue may fill a buy while a replace of it is in flight.
  datatype Venue = Patient | Eager

  function Free(a: Acct, k: nat): int
    requires k < |a.bal|
  {
    a.bal[k].total - a.bal[k].reserved
  }

  /** What answering a row's replace locks beyond what the row locks, once q more lots have filled. */
  function GapAfter(i: Inst, r: OrderRow, q: nat): int {
    Reservation(i, r.side, r.newPx, r.newQty - r.cum - q) - Reservation(i, r.side, r.px, r.leaves - q)
  }

  /** The most of that over fills of up to n lots; at least nothing. */
  function WorstGap(i: Inst, r: OrderRow, n: nat): (gap: nat) {
    if n == 0 then Max(0, GapAfter(i, r, 0)) else Max(WorstGap(i, r, n - 1), GapAfter(i, r, n))
  }

  /** Lots the venue may fill before it answers the replace; with its last lot the order is gone. */
  function MayFill(venue: Venue, r: OrderRow): nat {
    if venue == Eager && r.side == Buy && r.leaves > 0 then r.leaves - 1 else 0
  }

  /** What a row's replace in flight may still draw from asset k. */
  function GapOf(venue: Venue, a: Acct, k: nat): OrderRow -> int {
    (r: OrderRow) =>
      if Trades(a, r.instrument) && r.pendingReplace && SideAsset(InstOf(a, r.instrument), r.side) == k
      then WorstGap(InstOf(a, r.instrument), r, MayFill(venue, r)) else 0
  }

  /** The free funds cover every replace in flight. */
  ghost predicate Solvent(venue: Venue, e: Engine, k: nat) {
    k < |e.acct.bal| && Free(e.acct, k) >= SumRows(e.rows, GapOf(venue, e.acct, k))
  }

  /** Fills are at the price the order reserved or better and free of fees, and as the venue may. */
  ghost predicate FairFill(venue: Venue, e: Engine, a: Action) {
    match a
    case ReportA(rep, _) =>
      var p := FindRow(e.rows, rep.id);
      p.Some? && (rep.kind == PartialFill || rep.kind == FullFill) ==>
        var r := e.rows[p.value];
        && rep.fee == 0 && rep.lastPx >= 0
        && (r.side == Buy ==> rep.lastPx <= r.px && (r.pendingReplace ==> venue == Eager))
    case _ => true
  }

  ghost predicate FairFills(venue: Venue, c: Config, e: Engine, actions: seq<Action>)
    requires Ok(e)
  {
    forall j {:trigger actions[j]} :: 0 <= j < |actions| ==> FairFill(venue, Run(c, e, actions[..j]), actions[j])
  }

  lemma FairFront(venue: Venue, c: Config, e: Engine, actions: seq<Action>)
    requires Ok(e) && FairFills(venue, c, e, actions) && actions != []
    ensures var n := |actions| - 1;
            FairFills(venue, c, e, actions[..n]) && FairFill(venue, Run(c, e, actions[..n]), actions[n])
  {
    hide Ok, Run, FairFill;
    var front := actions[..|actions| - 1];
    forall j | 0 <= j < |front|
      ensures front[..j] == actions[..j] && front[j] == actions[j]
    {
    }
  }

  // Arithmetic of locks.

  lemma TruncMonotone(x: nat, y: nat, d: nat)
    requires x <= y && d > 0
    ensures 0 <= TruncDiv(x, d) <= TruncDiv(y, d)
  {
    hide TruncDiv;
    DivideOut(TruncDiv(x, d), TruncDiv(y, d), d);
  }

  lemma MoneyMonotone(i: Inst, x: nat, y: nat)
    requires x <= y
    ensures 0 <= TlToMoney(i, x) <= TlToMoney(i, y)
  {
    assert x * i.tlMul <= y * i.tlMul;
    if i.tlExp >= 0 {
      var p := Pow10(i.tlExp);
      assert x * i.tlMul * p <= y * i.tlMul * p;
    } else {
      TruncMonotone(x * i.tlMul, y * i.tlMul, Pow10(-i.tlExp));
    }
  }

  lemma LockMonotone(i: Inst, side: Side, px: nat, limit: nat, q: nat)
    requires px <= limit
    ensures 0 <= Reservation(i, side, px, q) <= Reservation(i, side, limit, q)
  {
    hide TlToMoney;
    assert px * q <= limit * q;
    MoneyMonotone(i, px * q, limit * q);
  }

  /** An execution at the limit or better, free of fees, never lowers an asset's free funds. */
  lemma FillFrees(a: Acct, r: OrderRow, rep: Report, k: nat)
    requires WellFormed(a) && Trades(a, r.instrument) && k < |a.bal| && r.px >= 0
    requires rep.fee == 0 && rep.lastPx >= 0 && rep.lastQty >= 0 && (r.side == Buy ==> rep.lastPx <= r.px)
    ensures var b := OnFill(a, r.instrument, r.side, rep.lastPx, rep.lastQty, r.px, rep.fee, rep.feeInBase);
            k < |b.bal| && Free(b, k) >= Free(a, k)
  {
    hide TlToMoney, Filled, FeeInQuote, EquityOf;
    var i := InstOf(a, r.instrument);
    LockMonotone(i, Sell, 0, 0, rep.lastQty);
    LockMonotone(i, Buy, rep.lastPx, if r.side == Buy then r.px else rep.lastPx, rep.lastQty);
  }

  // Gaps.

  lemma {:induction false} WorstBounds(i: Inst, r: OrderRow, n: nat, q: nat)
    requires q <= n
    ensures GapAfter(i, r, q) <= WorstGap(i, r, n)
  {
    hide GapAfter;
    if q < n {
      WorstBounds(i, r, n - 1, q);
    }
  }

  lemma {:induction false} WorstAttained(i: Inst, r: OrderRow, n: nat) returns (q: nat)
    requires WorstGap(i, r, n) > 0
    ensures q <= n && GapAfter(i, r, q) == WorstGap(i, r, n)
  {
    hide GapAfter;
    if n == 0 || GapAfter(i, r, n) == WorstGap(i, r, n) {
      q := n;
    } else {
      q := WorstAttained(i, r, n - 1);
    }
  }

  /** A fill uses up part of what may be filled. */
  lemma {:induction false} FillShrinksGap(i: Inst, r: OrderRow, rep: Report, n: nat)
    requires 0 <= rep.lastQty <= r.leaves
    ensures GapAfter(i, FilledRow(r, rep), n) == GapAfter(i, r, n + rep.lastQty)
    ensures WorstGap(i, FilledRow(r, rep), n) <= WorstGap(i, r, n + rep.lastQty)
  {
    hide Reservation;
    WorstBounds(i, r, n + rep.lastQty, n + rep.lastQty);
    if n > 0 {
      FillShrinksGap(i, r, rep, n - 1);
    }
  }

  /** Filling a sell leaves what its replace will add as it was. */
  lemma SellFillKeepsGap(i: Inst, r: OrderRow, rep: Report)
    requires r.side == Sell && 0 <= rep.lastQty <= r.leaves
    ensures GapAfter(i, FilledRow(r, rep), 0) == GapAfter(i, r, 0)
  {
    var n, q := r.newQty - r.cum, rep.lastQty;
    assert (n - q) * i.basePerLot - (r.leaves - q) * i.basePerLot == n * i.basePerLot - r.leaves * i.basePerLot;
  }

  /** A replace that draws anything still has lots to fill. */
  lemma GapNeedsLots(i: Inst, r: OrderRow, q: nat)
    requires r.px >= 0 && r.newPx >= 0 && q <= r.leaves && GapAfter(i, r, q) > 0
    ensures r.newQty - r.cum - q > 0
  {
    hide Reservation;
    LockMonotone(i, r.side, r.px, r.px, r.leaves - q);
    if r.newQty - r.cum - q <= 0 {
      LockNegative(i, r.side, r.newPx, r.newQty - r.cum - q);
    }
  }

  lemma LockNegative(i: Inst, side: Side, px: nat, lots: int)
    requires lots <= 0
    ensures Reservation(i, side, px, lots) <= 0
  {
    assert px * lots <= 0;
    assert px * lots * i.tlMul <= 0;
    assert lots * i.basePerLot <= 0;
    if i.tlExp >= 0 {
      assert px * lots * i.tlMul * Pow10(i.tlExp) <= 0;
    }
  }

  lemma GapSame(venue: Venue, a: Acct, b: Acct, k: nat, r: OrderRow)
    requires SameShape(a, b)
    ensures GapOf(venue, a, k)(r) == GapOf(venue, b, k)(r)
  {
    hide Reservation;
    if Trades(a, r.instrument) {
      var i, j := InstOf(a, r.instrument), InstOf(b, r.instrument);
      assert j.(pos := i.pos) == i;
      WorstSame(i, j, r, MayFill(venue, r));
    }
  }

  lemma {:induction false} WorstSame(i: Inst, j: Inst, r: OrderRow, n: nat)
    requires j.(pos := i.pos) == i
    ensures WorstGap(i, r, n) == WorstGap(j, r, n)
  {
    assert GapAfter(i, r, n) == GapAfter(j, r, n);
    if n > 0 {
      WorstSame(i, j, r, n - 1);
    }
  }

  lemma GapsSame(venue: Venue, a: Acct, b: Acct, k: nat, rows: seq<OrderRow>)
    requires SameShape(a, b)
    ensures SumRows(rows, GapOf(venue, a, k)) == SumRows(rows, GapOf(venue, b, k))
  {
    hide GapOf;
    forall i | 0 <= i < |rows|
      ensures GapOf(venue, a, k)(rows[i]) == GapOf(venue, b, k)(rows[i])
    {
      GapSame(venue, a, b, k, rows[i]);
    }
    SumSame(rows, GapOf(venue, a, k), GapOf(venue, b, k));
  }

  lemma {:induction false} GapsNonNegative(venue: Venue, rows: seq<OrderRow>, a: Acct, k: nat)
    ensures SumRows(rows, GapOf(venue, a, k)) >= 0
  {
    if rows != [] {
      GapsNonNegative(venue, rows[..|rows| - 1], a, k);
    }
  }

  lemma ReserveFree(a: Acct, r: OrderRow, k: nat)
    requires WellFormed(a) && Trades(a, r.instrument) && k < |a.bal|
    ensures var b := Reserve(a, r.instrument, r.side, r.px, r.leaves);
            k < |b.bal| && Free(b, k) == Free(a, k) - LockOf(a, k)(r)
    ensures var b := Release(a, r.instrument, r.side, r.px, r.leaves);
            k < |b.bal| && Free(b, k) == Free(a, k) + LockOf(a, k)(r)
  {
    hide Reservation;
  }

  // Requests.

  /** What a request, if it reaches the venue, may draw from asset k. */
  function Draws(venue: Venue, c: Config, e: Engine, a: Action, k: nat): int
    requires Ok(e)
  {
    match a
    case SubmitA(q, v, routed) =>
      if SubmitVerdict(c, e, q, v) == NoReject && routed && Trades(e.acct, q.instrument)
         && SideAsset(InstOf(e.acct, q.instrument), q.side) == k
      then Reservation(InstOf(e.acct, q.instrument), q.side, RefPx(q.px, v.mid2), q.qty) else 0
    case ReplaceA(id, px, qty, v, routed) =>
      if ReplaceAsked(c, e, id, px, qty, v) && routed then
        var r := e.rows[FindRow(e.rows, id).value];
        GapOf(venue, e.acct, k)(r.(pendingReplace := true, newPx := px, newQty := qty))
      else 0
    case _ => 0
  }

  /** The free funds cover the replaces in flight and what the request may draw. */
  ghost predicate Affords(venue: Venue, c: Config, e: Engine, a: Action, k: nat)
    requires Ok(e)
  {
    k < |e.acct.bal| && Free(e.acct, k) >= SumRows(e.rows, GapOf(venue, e.acct, k)) + Draws(venue, c, e, a, k)
  }

  lemma SubmitExact(venue: Venue, c: Config, e: Engine, q: Request, v: Env, routed: bool, k: nat)
    requires Ok(e) && IdsIssued(e) && e.counter + 1 < COUNTER_IDS
    ensures Solvent(venue, Submit(c, e, q, v, routed), k) <==> Affords(venue, c, e, SubmitA(q, v, routed), k)
  {
    hide SumRows, CheckNew, NextId, Reserve, SameShape, Reservation, WorstGap;
    if SubmitVerdict(c, e, q, v) == NoReject {
      InsertSucceeds(c, e, q, v);
      VerdictMeans(c, e, q, v);
      var row := NewRow(q, NextId(e.gen, e.counter), v);
      var b := Reserve(e.acct, q.instrument, q.side, row.px, q.qty);
      BalancesSame(e.acct, b);
      if k < |e.acct.bal| {
        ReserveFree(e.acct, row, k);
      }
      SumAppend(e.rows, row, GapOf(venue, e.acct, k));
      GapsSame(venue, e.acct, b, k, e.rows + [row]);
    }
  }

  lemma ReplaceExact(venue: Venue, c: Config, e: Engine, id: nat, px: int, qty: int, v: Env, routed: bool, k: nat)
    requires Ok(e)
    ensures Solvent(venue, Replace(c, e, id, px, qty, v, routed), k)
            <==> Affords(venue, c, e, ReplaceA(id, px, qty, v, routed), k)
  {
    hide SumRows, CheckReplace, FindRow, WellFormed, WorstGap;
    if ReplaceAsked(c, e, id, px, qty, v) && routed {
      var i := FindRow(e.rows, id).value;
      SumUpdate(e.rows, i, e.rows[i].(pendingReplace := true, newPx := px, newQty := qty), GapOf(venue, e.acct, k));
    }
  }

  // Other steps.

  lemma TouchSolvent(venue: Venue, e: Engine, i: nat, r: OrderRow, st: Stats, k: nat)
    requires i < |e.rows| && Solvent(venue, e, k)
    requires GapOf(venue, e.acct, k)(r) <= GapOf(venue, e.acct, k)(e.rows[i])
    ensures Solvent(venue, e.(rows := e.rows[i := r], st := st), k)
  {
    hide SumRows, GapOf;
    SumUpdate(e.rows, i, r, GapOf(venue, e.acct, k));
  }

  /** The end of an order gives back its lock and takes its gap with it. */
  lemma FinishMoves(venue: Venue, e: Engine, i: nat, k: nat)
    requires Ok(e) && i < |e.rows| && e.rows[i].px >= 0 && e.rows[i].leaves >= 0 && k < |e.acct.bal|
    ensures var f := Finish(e, i);
            && k < |f.acct.bal| && Free(f.acct, k) >= Free(e.acct, k)
            && SumRows(f.rows, GapOf(venue, f.acct, k))
               == SumRows(e.rows, GapOf(venue, e.acct, k)) - GapOf(venue, e.acct, k)(e.rows[i])
  {
    hide SumRows, Release, SameShape, WellFormed, GapOf, Reservation;
    var r := e.rows[i];
    var b := Release(e.acct, r.instrument, r.side, r.px, r.leaves);
    ReserveFree(e.acct, r, k);
    LockMonotone(InstOf(e.acct, r.instrument), r.side, r.px, r.px, r.leaves);
    SumSwapRemove(e.rows, i, GapOf(venue, e.acct, k));
    GapsSame(venue, e.acct, b, k, SwapRemove(e.rows, i));
  }

  lemma FinishSolvent(venue: Venue, e: Engine, i: nat, st: Stats, k: nat)
    requires Ok(e) && RowsSane(e) && i < |e.rows| && Solvent(venue, e, k)
    ensures Solvent(venue, Finish(e, i).(st := st), k)
  {
    hide SumRows, SameShape, WellFormed, WorstGap, Finish;
    FinishMoves(venue, e, i, k);
  }

  /** The answer to a replace locks what it draws, and the replace is no longer in flight. */
  lemma AnswerMoves(venue: Venue, e: Engine, i: nat, k: nat)
    requires Ok(e) && i < |e.rows| && k < |e.acct.bal|
    ensures var f, r, inst := ApplyReplaced(e, i), e.rows[i], InstOf(e.acct, e.rows[i].instrument);
            && k < |f.acct.bal|
            && Free(f.acct, k) == Free(e.acct, k) - (if SideAsset(inst, r.side) == k then GapAfter(inst, r, 0) else 0)
            && SumRows(f.rows, GapOf(venue, f.acct, k))
               == SumRows(e.rows, GapOf(venue, e.acct, k)) - GapOf(venue, e.acct, k)(r)
  {
    hide SumRows, Release, Reserve, SameShape, WellFormed, Reservation, WorstGap;
    var r, n := e.rows[i], ReplacedRow(e.rows[i]);
    var a := Release(e.acct, r.instrument, r.side, r.px, r.leaves);
    BalancesSame(e.acct, a);
    var b := Reserve(a, r.instrument, r.side, n.px, n.leaves);
    ReserveFree(e.acct, r, k);
    ReserveFree(a, n, k);
    LockSame(e.acct, a, k, n);
    SumUpdate(e.rows, i, n, GapOf(venue, e.acct, k));
    GapsSame(venue, e.acct, a, k, e.rows[i := n]);
    GapsSame(venue, a, b, k, e.rows[i := n]);
  }

  lemma ReplacedSolvent(venue: Venue, e: Engine, i: nat, k: nat)
    requires Ok(e) && i < |e.rows| && e.rows[i].pendingReplace && Solvent(venue, e, k)
    ensures Solvent(venue, ApplyReplaced(e, i), k)
  {
    hide SumRows, SameShape, WellFormed, GapAfter, WorstGap, ApplyReplaced;
    AnswerMoves(venue, e, i, k);
    WorstBounds(InstOf(e.acct, e.rows[i].instrument), e.rows[i], MayFill(venue, e.rows[i]), 0);
  }

  /** A partial fill that the venue may make does not worsen what the row's replace may draw. */
  lemma FillKeepsGap(venue: Venue, a: Acct, r: OrderRow, rep: Report, k: nat)
    requires 0 <= rep.lastQty < r.leaves && (r.side == Buy && r.pendingReplace ==> venue == Eager)
    ensures GapOf(venue, a, k)(FilledRow(r, rep)) <= GapOf(venue, a, k)(r)
  {
    hide GapAfter;
    if Trades(a, r.instrument) {
      var i := InstOf(a, r.instrument);
      if r.side == Buy {
        FillShrinksGap(i, r, rep, r.leaves - rep.lastQty - 1);
      } else {
        SellFillKeepsGap(i, r, rep);
      }
    }
  }

  lemma FillSolvent(venue: Venue, e: Engine, i: nat, rep: Report, k: nat)
    requires Ok(e) && RowsSane(e) && i < |e.rows| && 0 <= rep.lastQty <= e.rows[i].leaves && Solvent(venue, e, k)
    requires rep.fee == 0 && rep.lastPx >= 0
    requires var r := e.rows[i]; r.side == Buy ==> rep.lastPx <= r.px && (r.pendingReplace ==> venue == Eager)
    ensures Solvent(venue, ApplyFill(e, i, rep), k)
  {
    hide SumRows, OnFill, Finish, SameShape, WellFormed, GapOf;
    var r, n := e.rows[i], FilledRow(e.rows[i], rep);
    var a := OnFill(e.acct, r.instrument, r.side, rep.lastPx, rep.lastQty, r.px, rep.fee, rep.feeInBase);
    var f := e.(acct := a, rows := e.rows[i := n], st := e.st.(fills := e.st.fills + 1));
    FillFrees(e.acct, r, rep, k);
    SumUpdate(e.rows, i, n, GapOf(venue, e.acct, k));
    GapsSame(venue, e.acct, a, k, f.rows);
    if n.leaves == 0 {
      OkAfterFill(e, i, rep);
      FinishMoves(venue, f, i, k);
      GapSame(venue, e.acct, a, k, n);
      GapNonNegative(venue, e.acct, k, r);
    } else {
      FillKeepsGap(venue, e.acct, r, rep, k);
    }
  }

  lemma GapNonNegative(venue: Venue, a: Acct, k: nat, r: OrderRow)
    ensures GapOf(venue, a, k)(r) >= 0
  {
  }

  lemma StatsSolvent(venue: Venue, e: Engine, k: nat)
    ensures forall st :: Solvent(venue, e, k) ==> Solvent(venue, e.(st := st), k)
  {
    hide SumRows;
  }

  lemma ReportSolvent(venue: Venue, e: Engine, rep: Report, now: int, k: nat)
    requires Ok(e) && RowsSane(e) && Legal(e, ReportA(rep, now)) && FairFill(venue, e, ReportA(rep, now))
    requires Solvent(venue, e, k)
    ensures Solvent(venue, ApplyReport(e, rep, now), k)
  {
    hide Solvent, WellFormed, FindRow, WorstGap;
    var p := FindRow(e.rows, rep.id);
    StatsSolvent(venue, e, k);
    if p.Some? {
      var i, r := p.value, e.rows[p.value];
      match rep.kind {
        case Acked =>
          SameGap(venue, e.acct, r, r.(status := New, tAck := now), k);
          TouchSolvent(venue, e, i, r.(status := New, tAck := now), e.st.(acks := e.st.acks + 1), k);
        case PartialFill => FillSolvent(venue, e, i, rep, k);
        case FullFill => FillSolvent(venue, e, i, rep, k);
        case Replaced => ReplacedSolvent(venue, e, i, k);
        case Canceled => FinishSolvent(venue, e, i, e.st.(canceled := e.st.canceled + 1), k);
        case Expired => FinishSolvent(venue, e, i, e.st.(expired := e.st.expired + 1), k);
        case Rejected => FinishSolvent(venue, e, i, e.st.(venueRejects := e.st.venueRejects + 1), k);
        case CancelRejected =>
          GapNonNegative(venue, e.acct, k, r);
          TouchSolvent(venue, e, i, r.(pendingCancel := false, pendingReplace := false), e.st, k);
        case Restated =>
      }
    }
  }

  lemma SameGap(venue: Venue, a: Acct, r: OrderRow, s: OrderRow, k: nat)
    requires s == r.(status := s.status, tAck := s.tAck, pendingCancel := s.pendingCancel)
    ensures GapOf(venue, a, k)(s) == GapOf(venue, a, k)(r)
  {
    hide Reservation;
    if Trades(a, r.instrument) {
      WorstOfSame(InstOf(a, r.instrument), r, s, MayFill(venue, r));
    }
  }

  lemma {:induction false} WorstOfSame(i: Inst, r: OrderRow, s: OrderRow, n: nat)
    requires s == r.(status := s.status, tAck := s.tAck, pendingCancel := s.pendingCancel)
    ensures WorstGap(i, r, n) == WorstGap(i, s, n)
  {
    assert GapAfter(i, r, n) == GapAfter(i, s, n);
    if n > 0 {
      WorstOfSame(i, r, s, n - 1);
    }
  }

  lemma CancelSolvent(venue: Venue, e: Engine, id: nat, routed: bool, k: nat)
    requires Solvent(venue, e, k)
    ensures Solvent(venue, Cancel(e, id, routed), k)
  {
    hide Solvent, FindRow, GapOf;
    var p := FindRow(e.rows, id);
    StatsSolvent(venue, e, k);
    if p.Some? {
      var r := e.rows[p.value];
      SameGap(venue, e.acct, r, r.(pendingCancel := true), k);
      TouchSolvent(venue, e, p.value, r.(pendingCancel := true), e.st.(ordersCancel := e.st.ordersCancel + 1), k);
    }
  }

  lemma MarkSolvent(venue: Venue, e: Engine, inst: nat, bid: int, ask: int, k: nat)
    requires WellFormed(e.acct) && Solvent(venue, e, k)
    ensures Solvent(venue, e.(acct := Marked(e.acct, inst, bid, ask)), k)
  {
    hide SumRows, EquityOf, GapOf;
    GapsSame(venue, e.acct, Marked(e.acct, inst, bid, ask), k, e.rows);
  }

  /** A step keeps the replaces in flight covered just when it affords what it draws: every step but a request does. */
  lemma StepExact(venue: Venue, c: Config, e: Engine, a: Action, k: nat)
    requires Ok(e) && IdsIssued(e) && RowsSane(e) && Legal(e, a) && FairFill(venue, e, a) && Solvent(venue, e, k)
    ensures Solvent(venue, Step(c, e, a), k) <==> Affords(venue, c, e, a, k)
  {
    hide WellFormed, FindRow, Submit, Replace, ApplyReport, SumRows, SubmitVerdict, CheckReplace, GapOf;
    match a {
      case SubmitA(q, v, routed) => SubmitExact(venue, c, e, q, v, routed, k);
      case ReplaceA(id, px, qty, v, routed) => ReplaceExact(venue, c, e, id, px, qty, v, routed, k);
      case CancelA(id, routed) => CancelSolvent(venue, e, id, routed, k);
      case ReportA(rep, now) => ReportSolvent(venue, e, rep, now, k);
      case MarkA(inst, bid, ask) => MarkSolvent(venue, e, inst, bid, ask, k);
    }
  }

  // What the venue may still do.

  /** However the venue answers from here on, asset k is never overdrawn. */
  ghost predicate NeverOverdrawn(venue: Venue, c: Config, e: Engine, k: nat)
    requires Ok(e)
  {
    forall actions :: ReportsOnly(actions) && LegalRun(c, e, actions) && FairFills(venue, c, e, actions) ==>
      var r := Run(c, e, actions); k < |r.acct.bal| && Free(r.acct, k) >= 0
  }

  /** No instrument trades an asset against itself. */
  predicate TwoAssets(a: Acct) {
    forall j :: 0 <= j < |a.insts| ==> a.insts[j].base != a.insts[j].quote
  }

  lemma TwoAssetsSame(a: Acct, b: Acct)
    requires SameShape(a, b) && TwoAssets(a)
    ensures TwoAssets(b)
  {
    forall j | 0 <= j < |a.insts|
      ensures b.insts[j].base == a.insts[j].base && b.insts[j].quote == a.insts[j].quote
    {
      assert b.insts[j].(pos := a.insts[j].pos) == a.insts[j];
    }
  }

  lemma {:induction false} ReportsKeepSolvent(venue: Venue, c: Config, e: Engine, actions: seq<Action>, k: nat)
    requires Ok(e) && IdsIssued(e) && RowsSane(e) && Solvent(venue, e, k)
    requires ReportsOnly(actions) && LegalRun(c, e, actions) && FairFills(venue, c, e, actions)
    ensures Solvent(venue, Run(c, e, actions), k)
  {
    hide Solvent, Legal, RowsSane, IdsIssued, Ok, SameShape, WellFormed, LegalRun, ApplyReport, FairFill, FairFills;
    if actions != [] {
      LegalFront(c, e, actions);
      FairFront(venue, c, e, actions);
      var front, a := actions[..|actions| - 1], actions[|actions| - 1];
      ReportsKeepSolvent(venue, c, e, front, k);
      RunKeeps(c, e, front);
      ReportSolvent(venue, Run(c, e, front), a.rep, a.now, k);
    }
  }

  lemma FairExtends(venue: Venue, c: Config, e: Engine, done: seq<Action>, a: Action)
    requires Ok(e) && FairFills(venue, c, e, done) && FairFill(venue, Run(c, e, done), a)
    ensures FairFills(venue, c, e, done + [a])
  {
    hide Ok, FairFill;
    var more := done + [a];
    assert more[..|done|] == done;
    forall j | 0 <= j < |more|
      ensures FairFill(venue, Run(c, e, more[..j]), more[j])
    {
      assert j < |done| ==> more[..j] == done[..j] && more[j] == done[j];
    }
  }

  /** The venue's fill of q lots at the price the order reserved. */
  function FillAtLimit(r: OrderRow, q: nat): Report {
    Report(r.id, PartialFill, r.px, q, 0, false)
  }

  lemma FillStep(c: Config, e: Engine, i: nat, q: nat)
    requires Ok(e) && RowsSane(e) && i < |e.rows| && q < e.rows[i].leaves
    ensures var a := ReportA(FillAtLimit(e.rows[i], q), 0);
            && Legal(e, a) && (e.rows[i].pendingReplace && e.rows[i].side == Buy ==> FairFill(Eager, e, a))
            && Step(c, e, a) == ApplyFill(e, i, FillAtLimit(e.rows[i], q))
  {
    hide FindRow, ApplyFill, WellFormed;
    FindUnique(e.rows, i);
  }

  /** A buy filled in part at its limit: free funds as they were, and its replace draws what the fill has left. */
  lemma FillMovesGap(e: Engine, i: nat, q: nat, k: nat)
    requires Ok(e) && RowsSane(e) && i < |e.rows| && q < e.rows[i].leaves && k < |e.acct.bal| && TwoAssets(e.acct)
    requires e.rows[i].side == Buy && InstOf(e.acct, e.rows[i].instrument).quote == k
    ensures var f, n := ApplyFill(e, i, FillAtLimit(e.rows[i], q)), FilledRow(e.rows[i], FillAtLimit(e.rows[i], q));
            && f.rows == e.rows[i := n] && n.leaves > 0 && k < |f.acct.bal| && Free(f.acct, k) == Free(e.acct, k)
            && SameShape(e.acct, f.acct) && Ok(f)
            && SumRows(f.rows, GapOf(Eager, f.acct, k)) == SumRows(e.rows, GapOf(Eager, e.acct, k))
                 - GapOf(Eager, e.acct, k)(e.rows[i]) + GapOf(Eager, f.acct, k)(n)
            && GapAfter(InstOf(f.acct, n.instrument), n, 0) == GapAfter(InstOf(e.acct, n.instrument), e.rows[i], q)
  {
    hide SumRows, OnFill, Finish, SameShape, WellFormed, GapOf, GapAfter;
    var r, rep := e.rows[i], FillAtLimit(e.rows[i], q);
    var n := FilledRow(r, rep);
    var f := ApplyFill(e, i, rep);
    FillAtLimitFrees(e.acct, r, q, k);
    OkAfterFill(e, i, rep);
    SumUpdate(e.rows, i, n, GapOf(Eager, e.acct, k));
    GapsSame(Eager, e.acct, f.acct, k, f.rows);
    GapSame(Eager, e.acct, f.acct, k, n);
    FillShrinksGap(InstOf(e.acct, r.instrument), r, rep, 0);
    GapAfterSame(e.acct, f.acct, n);
  }

  lemma GapAfterSame(a: Acct, b: Acct, r: OrderRow)
    requires SameShape(a, b) && Trades(a, r.instrument)
    ensures Trades(b, r.instrument)
    ensures GapAfter(InstOf(a, r.instrument), r, 0) == GapAfter(InstOf(b, r.instrument), r, 0)
  {
    assert InstOf(b, r.instrument).(pos := InstOf(a, r.instrument).pos) == InstOf(a, r.instrument);
  }

  lemma FillAtLimitFrees(a: Acct, r: OrderRow, q: nat, k: nat)
    requires WellFormed(a) && Trades(a, r.instrument) && k < |a.bal| && TwoAssets(a)
    requires r.side == Buy && InstOf(a, r.instrument).quote == k
    ensures var b := OnFill(a, r.instrument, r.side, r.px, q, r.px, 0, false); k < |b.bal| && Free(b, k) == Free(a, k)
  {
    hide TlToMoney, Filled, FeeInQuote, EquityOf;
  }

  /** A replace that may draw something can be brought to draw all of it, and then answered. */
  lemma DrawOne(venue: Venue, c: Config, e: Engine, done: seq<Action>, i: nat, k: nat) returns (actions: seq<Action>)
    requires Ok(e) && IdsIssued(e) && RowsSane(e) && (venue == Eager ==> TwoAssets(e.acct))
    requires ReportsOnly(done) && LegalRun(c, e, done) && FairFills(venue, c, e, done)
    requires var f := Run(c, e, done); k < |f.acct.bal| && i < |f.rows| && GapOf(venue, f.acct, k)(f.rows[i]) > 0
    ensures ReportsOnly(actions) && LegalRun(c, e, actions) && FairFills(venue, c, e, actions)
    ensures var f, g := Run(c, e, done), Run(c, e, actions);
            var drawn := GapOf(venue, f.acct, k)(f.rows[i]);
            && k < |g.acct.bal| && Free(g.acct, k) == Free(f.acct, k) - drawn
            && SumRows(g.rows, GapOf(venue, g.acct, k)) == SumRows(f.rows, GapOf(venue, f.acct, k)) - drawn
  {
    hide Step, Legal, IdsIssued, SumRows, SameShape, WellFormed, LegalRun, Run, FairFill, FairFills, Ok, GapAfter,
         TwoAssets;
    var f := Run(c, e, done);
    RunKeeps(c, e, done);
    var r := f.rows[i];
    RowTraded(f, i);
    var inst := InstOf(f.acct, r.instrument);
    var q := WorstAttained(inst, r, MayFill(venue, r));
    GapNeedsLots(inst, r, q);
    var some := done;
    if q > 0 {
      FillStep(c, f, i, q);
      some := done + [ReportA(FillAtLimit(r, q), 0)];
      RunExtends(c, e, done, ReportA(FillAtLimit(r, q), 0));
      FairExtends(venue, c, e, done, ReportA(FillAtLimit(r, q), 0));
      TwoAssetsSame(e.acct, f.acct);
      FillMovesGap(f, i, q, k);
      RunKeeps(c, e, some);
    }
    var g := Run(c, e, some);
    var n := g.rows[i];
    AnswerStep(c, g, i);
    AnswerFair(venue, g, n);
    RunExtends(c, e, some, AnswerTo(n));
    FairExtends(venue, c, e, some, AnswerTo(n));
    AnswerMoves(venue, g, i, k);
    actions := some + [AnswerTo(n)];
    SameAsset(f.acct, g.acct, r.instrument);
  }

  lemma AnswerFair(venue: Venue, e: Engine, r: OrderRow)
    ensures FairFill(venue, e, AnswerTo(r))
  {
  }

  lemma RowTraded(e: Engine, i: nat)
    requires Ok(e) && i < |e.rows|
    ensures Trades(e.acct, e.rows[i].instrument)
  {
  }

  lemma SameAsset(a: Acct, b: Acct, inst: nat)
    requires (a == b || SameShape(a, b)) && Trades(a, inst)
    ensures Trades(b, inst) && InstOf(a, inst).base == InstOf(b, inst).base
    ensures InstOf(a, inst).quote == InstOf(b, inst).quote
  {
    assert a != b ==> InstOf(b, inst).(pos := InstOf(a, inst).pos) == InstOf(a, inst);
  }

  /** The venue can make every replace in flight draw all that it may. */
  lemma {:induction false} DrawsReach(venue: Venue, c: Config, e: Engine, done: seq<Action>, k: nat)
    returns (actions: seq<Action>)
    requires Ok(e) && IdsIssued(e) && RowsSane(e) && (venue == Eager ==> TwoAssets(e.acct))
    requires ReportsOnly(done) && LegalRun(c, e, done) && FairFills(venue, c, e, done)
    requires k < |Run(c, e, done).acct.bal|
    ensures ReportsOnly(actions) && LegalRun(c, e, actions) && FairFills(venue, c, e, actions)
    ensures var f, g := Run(c, e, done), Run(c, e, actions);
            k < |g.acct.bal| && Free(g.acct, k) == Free(f.acct, k) - SumRows(f.rows, GapOf(venue, f.acct, k))
    decreases SumRows(Run(c, e, done).rows, GapOf(venue, Run(c, e, done).acct, k))
  {
    hide Step, Legal, IdsIssued, RowsSane, SumRows, LegalRun, Run, FairFills, Ok, GapOf, TwoAssets;
    var f := Run(c, e, done);
    GapsNonNegative(venue, f.rows, f.acct, k);
    if i: nat :| i < |f.rows| && GapOf(venue, f.acct, k)(f.rows[i]) > 0 {
      var more := DrawOne(venue, c, e, done, i, k);
      GapsNonNegative(venue, Run(c, e, more).rows, Run(c, e, more).acct, k);
      actions := DrawsReach(venue, c, e, more, k);
    } else {
      NoGaps(venue, f, k);
      actions := done;
    }
  }

  /** No replace in flight may draw on the asset. */
  ghost predicate NoneDrawing(venue: Venue, e: Engine, k: nat) {
    forall i :: 0 <= i < |e.rows| ==> GapOf(venue, e.acct, k)(e.rows[i]) <= 0
  }

  lemma {:induction false} NoGaps(venue: Venue, e: Engine, k: nat)
    requires NoneDrawing(venue, e, k)
    ensures SumRows(e.rows, GapOf(venue, e.acct, k)) == 0
    decreases |e.rows|
  {
    hide WorstGap;
    if e.rows != [] {
      var n := |e.rows| - 1;
      var f := e.(rows := e.rows[..n]);
      assert forall i :: 0 <= i < n ==> f.rows[i] == e.rows[i];
      NoGaps(venue, f, k);
      GapNonNegative(venue, e.acct, k, e.rows[n]);
    }
  }

  /** No behaviour of the venue overdraws the asset if and only if the free funds cover the replaces in flight. */
  lemma CoveredIsSolvent(venue: Venue, c: Config, e: Engine, k: nat)
    requires Ok(e) && IdsIssued(e) && RowsSane(e) && k < |e.acct.bal| && (venue == Eager ==> TwoAssets(e.acct))
    ensures NeverOverdrawn(venue, c, e, k) <==> Solvent(venue, e, k)
  {
    hide Step, Legal, IdsIssued, RowsSane, SumRows, WellFormed, LegalRun, Ok, FairFill, GapOf, TwoAssets;
    if Solvent(venue, e, k) {
      forall actions | ReportsOnly(actions) && LegalRun(c, e, actions) && FairFills(venue, c, e, actions)
        ensures var r := Run(c, e, actions); k < |r.acct.bal| && Free(r.acct, k) >= 0
      {
        ReportsKeepSolvent(venue, c, e, actions, k);
        GapsNonNegative(venue, Run(c, e, actions).rows, Run(c, e, actions).acct, k);
      }
    } else {
      Start(venue, c, e);
      var actions := DrawsReach(venue, c, e, [], k);
      assert Free(Run(c, e, actions).acct, k) < 0;
    }
  }

  lemma Start(venue: Venue, c: Config, e: Engine)
    requires Ok(e)
    ensures ReportsOnly([]) && LegalRun(c, e, []) && FairFills(venue, c, e, []) && Run(c, e, []) == e
  {
  }

  /** A request leaves the asset covered against every later behaviour of the venue if and only if it affords it. */
  lemma RequestIsCovered(venue: Venue, c: Config, e: Engine, a: Action, k: nat)
    requires Ok(e) && IdsIssued(e) && RowsSane(e) && k < |e.acct.bal| && (venue == Eager ==> TwoAssets(e.acct))
    requires Legal(e, a) && FairFill(venue, e, a) && NeverOverdrawn(venue, c, e, k)
    ensures Ok(Step(c, e, a)) && (NeverOverdrawn(venue, c, Step(c, e, a), k) <==> Affords(venue, c, e, a, k))
  {
    hide Step, Legal, IdsIssued, RowsSane, Solvent, Affords, NeverOverdrawn, Ok, TwoAssets, FairFill;
    CoveredIsSolvent(venue, c, e, k);
    StepExact(venue, c, e, a, k);
    StepKeepsOk(c, e, a);
    LegalSubmits(e, a);
    StepKeepsIds(c, e, a);
    StepKeepsSane(c, e, a);
    BalancesSame(e.acct, Step(c, e, a).acct);
    if venue == Eager {
      TwoAssetsSame(e.acct, Step(c, e, a).acct);
    }
    CoveredIsSolvent(venue, c, Step(c, e, a), k);
  }

  // Runs.

  /** Every request of the run affords what it draws in the state it finds. */
  ghost predicate AffordableRun(venue: Venue, c: Config, e: Engine, actions: seq<Action>, k: nat)
    requires Ok(e)
  {
    forall j {:trigger actions[j]} :: 0 <= j < |actions| ==> Affords(venue, c, Run(c, e, actions[..j]), actions[j], k)
  }

  ghost predicate AlwaysCovered(venue: Venue, c: Config, e: Engine, actions: seq<Action>, k: nat)
    requires Ok(e)
  {
    forall j :: 0 <= j <= |actions| ==> NeverOverdrawn(venue, c, Run(c, e, actions[..j]), k)
  }

  /**
   From any covered state - funds and no orders is one - a legal run with fair fills stays covered
   throughout if and only if each of its requests affords what it draws.
   */
  lemma {:induction false} RunIsCovered(venue: Venue, c: Config, e: Engine, actions: seq<Action>, k: nat)
    requires Ok(e) && IdsIssued(e) && RowsSane(e) && k < |e.acct.bal| && (venue == Eager ==> TwoAssets(e.acct))
    requires LegalRun(c, e, actions) && FairFills(venue, c, e, actions) && NeverOverdrawn(venue, c, e, k)
    ensures AlwaysCovered(venue, c, e, actions, k) <==> AffordableRun(venue, c, e, actions, k)
  {
    hide Step, Legal, IdsIssued, RowsSane, NeverOverdrawn, Affords, Ok, LegalRun, TwoAssets, FairFill, FairFills, Run,
         SameShape, AffordableRun, AlwaysCovered;
    AffordableLast(venue, c, e, actions, k);
    CoveredLast(venue, c, e, actions, k);
    if actions != [] {
      RunLast(c, e, actions);
      CoveredLast(venue, c, e, actions[..|actions| - 1], k);
      LegalFront(c, e, actions);
      FairFront(venue, c, e, actions);
      var front, a := actions[..|actions| - 1], actions[|actions| - 1];
      RunIsCovered(venue, c, e, front, k);
      RunKeeps(c, e, front);
      BalancesSame(e.acct, Run(c, e, front).acct);
      if venue == Eager {
        TwoAssetsSame(e.acct, Run(c, e, front).acct);
      }
      if NeverOverdrawn(venue, c, Run(c, e, front), k) {
        RequestIsCovered(venue, c, Run(c, e, front), a, k);
      }
    }
  }

  lemma AffordableLast(venue: Venue, c: Config, e: Engine, actions: seq<Action>, k: nat)
    requires Ok(e)
    ensures actions == [] ==> AffordableRun(venue, c, e, actions, k)
    ensures actions != [] ==>
              var n := |actions| - 1;
              AffordableRun(venue, c, e, actions, k) <==>
              AffordableRun(venue, c, e, actions[..n], k) && Affords(venue, c, Run(c, e, actions[..n]), actions[n], k)
  {
    hide Run, Affords, Ok;
    if actions != [] {
      var n := |actions| - 1;
      assert forall j :: 0 <= j < n ==> actions[..n][j] == actions[j] && actions[..n][..j] == actions[..j];
    }
  }

  lemma CoveredLast(venue: Venue, c: Config, e: Engine, actions: seq<Action>, k: nat)
    requires Ok(e)
    ensures AlwaysCovered(venue, c, e, actions, k) ==> NeverOverdrawn(venue, c, Run(c, e, actions), k)
    ensures actions == [] ==> (AlwaysCovered(venue, c, e, actions, k) <==> NeverOverdrawn(venue, c, e, k))
    ensures actions != [] ==>
              (AlwaysCovered(venue, c, e, actions, k) <==>
               AlwaysCovered(venue, c, e, actions[..|actions| - 1], k)
               && NeverOverdrawn(venue, c, Run(c, e, actions), k))
  {
    hide NeverOverdrawn, Ok, Run;
    assert actions[..|actions|] == actions;
    if actions == [] {
      Start(venue, c, e);
    } else {
      var n := |actions| - 1;
      assert forall j :: 0 <= j <= n ==> actions[..n][..j] == actions[..j];
    }
  }

  // The gate.

  lemma SubmitVerdictFunds(c: Config, e: Engine, q: Request, v: Env)
    requires WellFormed(e.acct) && SubmitVerdict(c, e, q, v) == NoReject && c.lim.spotOnly
    ensures Trades(e.acct, q.instrument) && q.qty > 0
    ensures Reservation(InstOf(e.acct, q.instrument), q.side, RefPx(q.px, v.mid2), q.qty)
            <= Available(e.acct, q.instrument, q.side)
  {
    hide PositionCheck, Reservation;
  }

  lemma ReplaceVerdictFunds(c: Config, e: Engine, r: OrderRow, px: int, qty: int, v: Env)
    requires WellFormed(e.acct) && Trades(e.acct, r.instrument) && c.lim.spotOnly
    requires CheckReplace(c, e, r, px, qty, v) == NoReject
    ensures GapAfter(InstOf(e.acct, r.instrument), r.(newPx := px, newQty := qty), 0)
            <= Available(e.acct, r.instrument, r.side)
  {
    hide PositionCheck, Reservation;
  }

  /** While a replace may draw on an asset no other request does. */
  ghost predicate Quiet(e: Engine, a: Action) {
    match a
    case SubmitA(q, _, _) =>
      Trades(e.acct, q.instrument) ==> NoneDrawing(Patient, e, SideAsset(InstOf(e.acct, q.instrument), q.side))
    case ReplaceA(id, _, _, _, _) =>
      var p := FindRow(e.rows, id);
      p.Some? ==>
        var r := e.rows[p.value];
        Trades(e.acct, r.instrument) ==> NoneDrawing(Patient, e, SideAsset(InstOf(e.acct, r.instrument), r.side))
    case _ => true
  }

  ghost predicate QuietRun(c: Config, e: Engine, actions: seq<Action>)
    requires Ok(e)
  {
    forall j {:trigger actions[j]} :: 0 <= j < |actions| ==> Quiet(Run(c, e, actions[..j]), actions[j])
  }

  /** The gate's own check affords a quiet request, for a venue that answers a buy's replace before it fills. */
  lemma QuietAffords(c: Config, e: Engine, a: Action, k: nat)
    requires Ok(e) && c.lim.spotOnly && Quiet(e, a) && Solvent(Patient, e, k)
    ensures Affords(Patient, c, e, a, k)
  {
    hide SumRows, CheckNew, CheckReplace, FindRow, WellFormed, Reservation, WorstGap;
    match a {
      case SubmitA(q, v, routed) =>
        if SubmitVerdict(c, e, q, v) == NoReject {
          SubmitVerdictFunds(c, e, q, v);
          NoGaps(Patient, e, SideAsset(InstOf(e.acct, q.instrument), q.side));
        }
      case ReplaceA(id, px, qty, v, routed) =>
        if ReplaceAsked(c, e, id, px, qty, v) {
          var r := e.rows[FindRow(e.rows, id).value];
          ReplaceVerdictFunds(c, e, r, px, qty, v);
          NoGaps(Patient, e, SideAsset(InstOf(e.acct, r.instrument), r.side));
          PatientGap(InstOf(e.acct, r.instrument), r.(pendingReplace := true, newPx := px, newQty := qty));
        }
      case _ =>
    }
  }

  lemma PatientGap(i: Inst, r: OrderRow)
    ensures WorstGap(i, r, MayFill(Patient, r)) == Max(0, GapAfter(i, r, 0))
  {
  }

  /** The gate alone: every legal and quiet spot-only run with fair fills keeps total - reserved >= 0. */
  lemma {:induction false} StaysSolvent(c: Config, e: Engine, actions: seq<Action>, k: nat)
    requires Ok(e) && IdsIssued(e) && RowsSane(e) && c.lim.spotOnly && Solvent(Patient, e, k)
    requires LegalRun(c, e, actions) && FairFills(Patient, c, e, actions) && QuietRun(c, e, actions)
    ensures var r := Run(c, e, actions);
            && IdsIssued(r) && RowsSane(r) && Solvent(Patient, r, k)
            && r.acct.bal[k].total - r.acct.bal[k].reserved >= 0
  {
    hide Step, Legal, RowsSane, IdsIssued, Ok, WellFormed, FairFill, SumRows, LegalRun, FairFills, Affords, Quiet;
    RunKeeps(c, e, actions);
    if actions != [] {
      LegalFront(c, e, actions);
      FairFront(Patient, c, e, actions);
      var n := |actions| - 1;
      var front, a := actions[..n], actions[n];
      assert forall j :: 0 <= j < n ==> front[..j] == actions[..j] && front[j] == actions[j];
      StaysSolvent(c, e, front, k);
      var b := Run(c, e, front);
      RunKeeps(c, e, front);
      QuietAffords(c, b, a, k);
      StepExact(Patient, c, b, a, k);
    }
    GapsNonNegative(Patient, Run(c, e, actions).rows, Run(c, e, actions).acct, k);
  }
}
