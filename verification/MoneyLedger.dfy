/**
 Where money and lots go: every asset's total over any run is what its fills exchanged, less their fees,
 and the same fills move the positions. Marked to the market, a position shows cash flow plus its lots.
 */
module MoneyLedger {
  import opened Common
  import opened Positions
  import opened OrderTypes
  import opened AccountModule
  import opened Engine
  import opened LegalRuns

  // An execution on an instrument of the account, with its fee in one of the two assets.
  datatype Trade = Trade(inst: nat, side: Side, px: int, qty: int, fee: int, feeInBase: bool)

  /** Lots of the trades on instruments with this base asset, in its units: bought less sold. */
  function Lots(a: Acct, ts: seq<Trade>, asset: nat): int {
    if ts == [] then 0
    else
      var t := ts[|ts| - 1];
      Lots(a, ts[..|ts| - 1], asset) +
      if !Trades(a, t.inst) || InstOf(a, t.inst).base != asset then 0
      else if t.side == Buy then t.qty * InstOf(a, t.inst).basePerLot
      else -(t.qty * InstOf(a, t.inst).basePerLot)
  }

  /** Money of the trades on instruments with this quote asset: notional of sells less that of buys. */
  function Cash(a: Acct, ts: seq<Trade>, asset: nat): int {
    if ts == [] then 0
    else
      var t := ts[|ts| - 1];
      Cash(a, ts[..|ts| - 1], asset) +
      if !Trades(a, t.inst) || InstOf(a, t.inst).quote != asset then 0
      else if t.side == Sell then Notional(InstOf(a, t.inst), t.px, t.qty)
      else -Notional(InstOf(a, t.inst), t.px, t.qty)
  }

  /** Fees of the trades that were taken in this asset. */
  function FeesIn(a: Acct, ts: seq<Trade>, asset: nat): int {
    if ts == [] then 0
    else
      var t := ts[|ts| - 1];
      FeesIn(a, ts[..|ts| - 1], asset) +
      if !Trades(a, t.inst) then 0
      else if (if t.feeInBase then InstOf(a, t.inst).base else InstOf(a, t.inst).quote) == asset then t.fee else 0
  }

  function Ledger(a: Acct, ts: seq<Trade>, asset: nat): int {
    Lots(a, ts, asset) + Cash(a, ts, asset) - FeesIn(a, ts, asset)
  }

  /** Fees of the instrument's trades, those in base valued at the fill's price. */
  function Booked(a: Acct, ts: seq<Trade>, inst: nat): int
    requires Trades(a, inst)
  {
    if ts == [] then 0
    else
      var t, i := ts[|ts| - 1], InstOf(a, inst);
      Booked(a, ts[..|ts| - 1], inst) +
      if t.inst != inst then 0 else FeeInQuote(i, Notional(i, t.px, t.qty), t.qty, t.fee, t.feeInBase)
  }

  /** The fills of one instrument. */
  function FillsOf(ts: seq<Trade>, inst: nat): seq<Fill> {
    if ts == [] then []
    else
      var t := ts[|ts| - 1];
      FillsOf(ts[..|ts| - 1], inst) + if t.inst == inst then [Fill(t.side, t.px, t.qty)] else []
  }

  // The executions of a run.

  /** What a step executes: the fill of a live order, on its instrument and side. */
  function Executes(e: Engine, a: Action): (ts: seq<Trade>)
    ensures |ts| <= 1
  {
    if !a.ReportA? || !(a.rep.kind == PartialFill || a.rep.kind == FullFill) then []
    else
      var p := FindRow(e.rows, a.rep.id);
      if p.None? then []
      else
        var r := e.rows[p.value];
        [Trade(r.instrument, r.side, a.rep.lastPx, a.rep.lastQty, a.rep.fee, a.rep.feeInBase)]
  }

  function Executions(c: Config, e: Engine, actions: seq<Action>): seq<Trade>
    requires Ok(e)
  {
    if actions == [] then []
    else
      var n := |actions| - 1;
      Executions(c, e, actions[..n]) + Executes(Run(c, e, actions[..n]), actions[n])
  }

  // One step.

  /** No total has changed. */
  ghost predicate SameTotals(a: Acct, b: Acct) {
    |b.bal| == |a.bal| && forall k :: 0 <= k < |a.bal| ==> b.bal[k].total == a.bal[k].total
  }

  /** No position has changed, but for its mark. */
  ghost predicate SamePositions(a: Acct, b: Acct) {
    && b.slotOf == a.slotOf && |b.insts| == |a.insts|
    && forall k :: 0 <= k < |a.insts| ==> b.insts[k].pos == a.insts[k].pos.(mark2 := b.insts[k].pos.mark2)
  }

  /** What a position holds and has realized, its mark and fees apart. */
  predicate SameHeld(p: Position, q: Position) {
    q == p.(mark2 := q.mark2, fees := q.fees)
  }

  lemma FundsMove(a: Acct, inst: nat, side: Side, px: int, qty: int)
    requires WellFormed(a) && Trades(a, inst)
    ensures SameTotals(a, Reserve(a, inst, side, px, qty)) && SamePositions(a, Reserve(a, inst, side, px, qty))
    ensures SameTotals(a, Release(a, inst, side, px, qty)) && SamePositions(a, Release(a, inst, side, px, qty))
  {
    hide Reservation;
  }

  lemma MarkMoves(a: Acct, inst: nat, bid: int, ask: int)
    requires WellFormed(a)
    ensures SameTotals(a, Marked(a, inst, bid, ask)) && SamePositions(a, Marked(a, inst, bid, ask))
  {
    hide EquityOf;
  }

  /** A trade exchanges base for quote and pays its fee; nothing else changes any total. */
  lemma FillMoves(a: Acct, t: Trade, orderPx: int, k: nat)
    requires WellFormed(a) && Trades(a, t.inst) && k < |a.bal|
    ensures var b := OnFill(a, t.inst, t.side, t.px, t.qty, orderPx, t.fee, t.feeInBase);
            b.bal[k].total == a.bal[k].total + Ledger(a, [t], k)
  {
    hide Reservation, Notional, Filled, FeeInQuote, EquityOf;
    LedgerGrows(a, [], t, k);
    assert [] + [t] == [t];
    assert Ledger(a, [], k) == 0;
  }

  function One(a: Acct, t: Trade, k: nat): int {
    if !Trades(a, t.inst) then 0
    else
      var i := InstOf(a, t.inst);
      (if i.base != k then 0 else if t.side == Buy then t.qty * i.basePerLot else -(t.qty * i.basePerLot))
      + (if i.quote != k then 0 else if t.side == Sell then Notional(i, t.px, t.qty) else -Notional(i, t.px, t.qty))
      - (if (if t.feeInBase then i.base else i.quote) == k then t.fee else 0)
  }

  lemma LedgerGrows(a: Acct, ts: seq<Trade>, t: Trade, k: nat)
    ensures Ledger(a, ts + [t], k) == Ledger(a, ts, k) + One(a, t, k)
  {
    hide Notional;
    assert (ts + [t])[..|ts|] == ts;
  }

  /**
   A position's fees grow by a quote fee itself, and by a base fee at the fill's price: what the base units of the
   fill are worth, to within the one truncated unit.
   */
  lemma FeeBooked(a: Acct, t: Trade, orderPx: int) returns (booked: int)
    requires WellFormed(a) && Trades(a, t.inst)
    ensures var b := OnFill(a, t.inst, t.side, t.px, t.qty, orderPx, t.fee, t.feeInBase);
            InstOf(b, t.inst).pos.fees == InstOf(a, t.inst).pos.fees + booked
    ensures !t.feeInBase ==> booked == t.fee
    ensures var i := InstOf(a, t.inst);
            var units := t.qty * i.basePerLot;
            t.feeInBase && units > 0 ==>
              Abs(booked * units) <= Abs(t.fee * Notional(i, t.px, t.qty)) < Abs(booked * units) + units
  {
    hide Notional, EquityOf, Reservation, Paid, Credit;
    var i := InstOf(a, t.inst);
    booked := FeeInQuote(i, Notional(i, t.px, t.qty), t.qty, t.fee, t.feeInBase);
    FilledFees(i.pos.(fees := i.pos.fees + booked), Fill(t.side, t.px, t.qty));
  }

  lemma FilledFees(p: Position, f: Fill)
    ensures Filled(p, f).fees == p.fees
  {
    hide TruncDiv;
  }

  // Steps and runs.

  lemma {:induction false} ShapeLedger(a: Acct, b: Acct, ts: seq<Trade>, k: nat)
    requires SameShape(a, b)
    ensures Ledger(b, ts, k) == Ledger(a, ts, k)
  {
    hide Notional, Ledger;
    if ts == [] {
      NoTrades(a, k);
      NoTrades(b, k);
    } else {
      var n := |ts| - 1;
      ShapeLedger(a, b, ts[..n], k);
      LedgerGrows(a, ts[..n], ts[n], k);
      LedgerGrows(b, ts[..n], ts[n], k);
      ShapeOne(a, b, ts[n], k);
      assert ts[..n] + [ts[n]] == ts;
    }
  }

  lemma ShapeOne(a: Acct, b: Acct, t: Trade, k: nat)
    requires SameShape(a, b)
    ensures One(b, t, k) == One(a, t, k)
  {
    if Trades(a, t.inst) {
      assert InstOf(b, t.inst) == InstOf(a, t.inst).(pos := InstOf(b, t.inst).pos);
    }
  }

  lemma NoTrades(a: Acct, k: nat)
    ensures Ledger(a, [], k) == 0
  {
  }

  lemma SameTotalsTrans(a: Acct, b: Acct, d: Acct)
    requires SameTotals(a, b) && SameTotals(b, d)
    ensures SameTotals(a, d)
  {
  }

  /** Only an execution moves a total, by its exchange and its fee. */
  lemma StepMoney(c: Config, e: Engine, a: Action, k: nat)
    requires Ok(e) && k < |e.acct.bal|
    ensures var f := Step(c, e, a);
            k < |f.acct.bal| && f.acct.bal[k].total == e.acct.bal[k].total + Ledger(e.acct, Executes(e, a), k)
  {
    hide CheckNew, CheckReplace, Reserve, Release, OnFill, Marked, FindRow, WellFormed, Ledger, Inserted, Erased;
    NoTrades(e.acct, k);
    match a {
      case SubmitA(q, v, routed) =>
        if SubmitVerdict(c, e, q, v) == NoReject {
          VerdictMeans(c, e, q, v);
          FundsMove(e.acct, q.instrument, q.side, NewRow(q, 0, v).px, q.qty);
        }
      case ReplaceA(id, px, qty, v, routed) =>
      case CancelA(id, routed) =>
      case ReportA(rep, now) => ReportMoney(e, rep, now, k);
      case MarkA(inst, bid, ask) => MarkMoves(e.acct, inst, bid, ask);
    }
  }

  lemma ReportMoney(e: Engine, rep: Report, now: int, k: nat)
    requires Ok(e) && k < |e.acct.bal|
    ensures var f := ApplyReport(e, rep, now);
            k < |f.acct.bal|
            && f.acct.bal[k].total == e.acct.bal[k].total + Ledger(e.acct, Executes(e, ReportA(rep, now)), k)
  {
    hide Reserve, Release, OnFill, FindRow, WellFormed, Ledger;
    NoTrades(e.acct, k);
    var p := FindRow(e.rows, rep.id);
    if p.Some? {
      var r := e.rows[p.value];
      FundsMove(e.acct, r.instrument, r.side, r.px, r.leaves);
      if rep.kind == Replaced {
        var a := Release(e.acct, r.instrument, r.side, r.px, r.leaves);
        FundsMove(a, r.instrument, r.side, ReplacedRow(r).px, ReplacedRow(r).leaves);
      } else if rep.kind == PartialFill || rep.kind == FullFill {
        var t := Trade(r.instrument, r.side, rep.lastPx, rep.lastQty, rep.fee, rep.feeInBase);
        FillMoves(e.acct, t, r.px, k);
        var a := OnFill(e.acct, r.instrument, r.side, rep.lastPx, rep.lastQty, r.px, rep.fee, rep.feeInBase);
        FundsMove(a, r.instrument, r.side, r.px, FilledRow(r, rep).leaves);
      }
    }
  }

  /**
   Over every run each asset's total changes by exactly the lots bought less those sold where it is the
   base, the notional of sells less that of buys where it is the quote, and less the fees taken in it.
   */
  lemma {:induction false} RunMoney(c: Config, e: Engine, actions: seq<Action>, k: nat)
    requires Ok(e) && k < |e.acct.bal|
    ensures var r, ts := Run(c, e, actions), Executions(c, e, actions);
            && SameShape(e.acct, r.acct) && k < |r.acct.bal|
            && r.acct.bal[k].total
               == e.acct.bal[k].total + Lots(e.acct, ts, k) + Cash(e.acct, ts, k) - FeesIn(e.acct, ts, k)
  {
    hide Step, Ok, SameShape, Executes, Lots, Cash, FeesIn, WellFormed;
    if actions == [] {
      SameShapeRefl(e.acct);
      NoTrades(e.acct, k);
    } else {
      var n := |actions| - 1;
      var b := Run(c, e, actions[..n]);
      RunMoney(c, e, actions[..n], k);
      StepMoney(c, b, actions[n], k);
      StepKeepsOk(c, b, actions[n]);
      SameShapeTrans(e.acct, b.acct, Step(c, b, actions[n]).acct);
      ShapeLedger(e.acct, b.acct, Executes(b, actions[n]), k);
      LedgerJoins(e.acct, Executions(c, e, actions[..n]), Executes(b, actions[n]), k);
    }
  }

  /** A step executes at most one trade. */
  lemma LedgerJoins(a: Acct, ts: seq<Trade>, us: seq<Trade>, k: nat)
    requires |us| <= 1
    ensures Ledger(a, ts + us, k) == Ledger(a, ts, k) + Ledger(a, us, k)
  {
    hide Ledger, One;
    NoTrades(a, k);
    if us == [] {
      assert ts + us == ts;
    } else {
      LedgerGrows(a, ts, us[0], k);
      LedgerGrows(a, [], us[0], k);
      assert us == [us[0]] && [] + us == us;
    }
  }

  // Positions.

  lemma FilledHeld(p: Position, q: Position, f: Fill)
    requires SameHeld(p, q)
    ensures SameHeld(Filled(p, f), Filled(q, f))
  {
    hide TruncDiv;
  }

  lemma FillsGrow(ts: seq<Trade>, t: Trade, inst: nat)
    ensures FillsOf(ts + [t], inst) == FillsOf(ts, inst) + if t.inst == inst then [Fill(t.side, t.px, t.qty)] else []
  {
    assert (ts + [t])[..|ts|] == ts;
  }

  lemma FilledAllGrows(p: Position, fs: seq<Fill>, f: Fill)
    ensures FilledAll(p, fs + [f]) == Filled(FilledAll(p, fs), f)
  {
    assert (fs + [f])[..|fs|] == fs;
  }

  lemma HeldTrans(p: Position, q: Position, r: Position)
    requires SameHeld(p, q) && SameHeld(q, r)
    ensures SameHeld(p, r)
  {
  }

  /** What an execution does to an instrument's position, and to no other's. */
  lemma FillHolds(a: Acct, t: Trade, orderPx: int, inst: nat)
    requires WellFormed(a) && Trades(a, t.inst) && Trades(a, inst) && DistinctSlots(a)
    ensures var b := OnFill(a, t.inst, t.side, t.px, t.qty, orderPx, t.fee, t.feeInBase);
            && Trades(b, inst)
            && SameHeld(if t.inst == inst then Filled(InstOf(a, inst).pos, Fill(t.side, t.px, t.qty))
                        else InstOf(a, inst).pos, InstOf(b, inst).pos)
            && InstOf(b, inst).pos.fees == InstOf(a, inst).pos.fees + Booked(a, [t], inst)
  {
    hide Notional, Filled, EquityOf, FeeInQuote, Credit, Paid;
    BookedGrows(a, [], t, inst);
    assert [] + [t] == [t];
    var p := InstOf(a, t.inst).pos;
    var i := InstOf(a, t.inst);
    var fees := p.fees + FeeInQuote(i, Notional(i, t.px, t.qty), t.qty, t.fee, t.feeInBase);
    FilledHeld(p, p.(fees := fees), Fill(t.side, t.px, t.qty));
    FilledFees(p.(fees := fees), Fill(t.side, t.px, t.qty));
  }

  lemma BookedGrows(a: Acct, ts: seq<Trade>, t: Trade, inst: nat)
    requires Trades(a, inst)
    ensures var i := InstOf(a, inst);
            Booked(a, ts + [t], inst) == Booked(a, ts, inst) +
              if t.inst != inst then 0 else FeeInQuote(i, Notional(i, t.px, t.qty), t.qty, t.fee, t.feeInBase)
    ensures Booked(a, [], inst) == 0
  {
    hide FeeInQuote, Notional;
    assert (ts + [t])[..|ts|] == ts;
  }

  lemma BookedJoins(a: Acct, ts: seq<Trade>, us: seq<Trade>, inst: nat)
    requires Trades(a, inst) && |us| <= 1
    ensures Booked(a, ts + us, inst) == Booked(a, ts, inst) + Booked(a, us, inst)
  {
    hide Booked, FeeInQuote, Notional;
    if us == [] {
      assert ts + us == ts;
      NothingBooked(a, inst);
    } else {
      BookedGrows(a, ts, us[0], inst);
      BookedGrows(a, [], us[0], inst);
      assert us == [us[0]] && [] + us == us;
    }
  }

  lemma NothingBooked(a: Acct, inst: nat)
    requires Trades(a, inst)
    ensures Booked(a, [], inst) == 0
  {
  }

  lemma {:induction false} ShapeBooked(a: Acct, b: Acct, ts: seq<Trade>, inst: nat)
    requires SameShape(a, b) && Trades(a, inst) && Trades(b, inst)
    ensures Booked(b, ts, inst) == Booked(a, ts, inst)
  {
    if ts != [] {
      ShapeBooked(a, b, ts[..|ts| - 1], inst);
      assert InstOf(b, inst) == InstOf(a, inst).(pos := InstOf(b, inst).pos);
    }
  }

  lemma Untouched(a: Acct, b: Acct, inst: nat)
    requires SamePositions(a, b) && Trades(a, inst)
    ensures Trades(b, inst) && SameHeld(InstOf(a, inst).pos, InstOf(b, inst).pos)
    ensures InstOf(b, inst).pos.fees == InstOf(a, inst).pos.fees
  {
  }

  function HeldAfter(p: Position, ts: seq<Trade>, inst: nat): Position {
    FilledAll(p, FillsOf(ts, inst))
  }

  lemma StepHolds(c: Config, e: Engine, a: Action, inst: nat)
    requires Ok(e) && Trades(e.acct, inst) && DistinctSlots(e.acct)
    ensures var f := Step(c, e, a);
            && Trades(f.acct, inst)
            && SameHeld(HeldAfter(InstOf(e.acct, inst).pos, Executes(e, a), inst), InstOf(f.acct, inst).pos)
            && InstOf(f.acct, inst).pos.fees == InstOf(e.acct, inst).pos.fees + Booked(e.acct, Executes(e, a), inst)
  {
    NothingBooked(e.acct, inst);
    hide CheckNew, CheckReplace, Reserve, Release, OnFill, Marked, FindRow, WellFormed, Filled, Inserted, Erased,
         SamePositions;
    assert HeldAfter(InstOf(e.acct, inst).pos, [], inst) == InstOf(e.acct, inst).pos;
    SamePositionsRefl(e.acct);
    Untouched(e.acct, e.acct, inst);
    match a {
      case SubmitA(q, v, routed) =>
        if SubmitVerdict(c, e, q, v) == NoReject {
          VerdictMeans(c, e, q, v);
          FundsMove(e.acct, q.instrument, q.side, NewRow(q, 0, v).px, q.qty);
          Untouched(e.acct, Reserve(e.acct, q.instrument, q.side, NewRow(q, 0, v).px, q.qty), inst);
        }
      case ReplaceA(id, px, qty, v, routed) =>
      case CancelA(id, routed) =>
      case ReportA(rep, now) => ReportHolds(e, rep, now, inst);
      case MarkA(i, bid, ask) =>
        MarkMoves(e.acct, i, bid, ask);
        Untouched(e.acct, Marked(e.acct, i, bid, ask), inst);
    }
  }

  lemma SamePositionsRefl(a: Acct)
    ensures SamePositions(a, a)
  {
  }

  lemma ReleaseHolds(a: Acct, inst: nat, r: OrderRow, qty: int)
    requires WellFormed(a) && Trades(a, inst) && Trades(a, r.instrument)
    ensures var b := Release(a, r.instrument, r.side, r.px, qty);
            && Trades(b, inst) && SameHeld(InstOf(a, inst).pos, InstOf(b, inst).pos)
            && InstOf(b, inst).pos.fees == InstOf(a, inst).pos.fees
    ensures var b := Reserve(a, r.instrument, r.side, r.px, qty);
            && Trades(b, inst) && SameHeld(InstOf(a, inst).pos, InstOf(b, inst).pos)
            && InstOf(b, inst).pos.fees == InstOf(a, inst).pos.fees
  {
    hide Release, Reserve, WellFormed;
    FundsMove(a, r.instrument, r.side, r.px, qty);
    Untouched(a, Release(a, r.instrument, r.side, r.px, qty), inst);
    Untouched(a, Reserve(a, r.instrument, r.side, r.px, qty), inst);
  }

  lemma ReportHolds(e: Engine, rep: Report, now: int, inst: nat)
    requires Ok(e) && Trades(e.acct, inst) && DistinctSlots(e.acct)
    ensures var f, ts := ApplyReport(e, rep, now), Executes(e, ReportA(rep, now));
            && Trades(f.acct, inst)
            && SameHeld(HeldAfter(InstOf(e.acct, inst).pos, ts, inst), InstOf(f.acct, inst).pos)
            && InstOf(f.acct, inst).pos.fees == InstOf(e.acct, inst).pos.fees + Booked(e.acct, ts, inst)
  {
    hide Reserve, Release, FindRow, WellFormed, Filled, DistinctSlots, Booked, ApplyFill;
    NothingBooked(e.acct, inst);
    assert HeldAfter(InstOf(e.acct, inst).pos, [], inst) == InstOf(e.acct, inst).pos;
    var p := FindRow(e.rows, rep.id);
    if p.Some? {
      var r := e.rows[p.value];
      ReleaseHolds(e.acct, inst, r, r.leaves);
      if rep.kind == Replaced {
        var n := ReplacedRow(r);
        ReleaseHolds(Release(e.acct, r.instrument, r.side, r.px, r.leaves), inst, n, n.leaves);
      } else if rep.kind == PartialFill || rep.kind == FullFill {
        ExecutionHolds(e, p.value, rep, inst);
      }
    }
  }

  lemma ExecutionHolds(e: Engine, i: nat, rep: Report, inst: nat)
    requires Ok(e) && Trades(e.acct, inst) && DistinctSlots(e.acct) && i < |e.rows|
    ensures var f, r := ApplyFill(e, i, rep), e.rows[i];
            var ts := [Trade(r.instrument, r.side, rep.lastPx, rep.lastQty, rep.fee, rep.feeInBase)];
            && Trades(f.acct, inst)
            && SameHeld(HeldAfter(InstOf(e.acct, inst).pos, ts, inst), InstOf(f.acct, inst).pos)
            && InstOf(f.acct, inst).pos.fees == InstOf(e.acct, inst).pos.fees + Booked(e.acct, ts, inst)
  {
    hide Release, OnFill, WellFormed, Filled, DistinctSlots, Booked;
    var r := e.rows[i];
    var t := Trade(r.instrument, r.side, rep.lastPx, rep.lastQty, rep.fee, rep.feeInBase);
    FillHolds(e.acct, t, r.px, inst);
    HeldByOne(InstOf(e.acct, inst).pos, t, inst);
    var a := OnFill(e.acct, r.instrument, r.side, rep.lastPx, rep.lastQty, r.px, rep.fee, rep.feeInBase);
    ReleaseHolds(a, inst, r, FilledRow(r, rep).leaves);
  }

  lemma HeldByOne(p: Position, t: Trade, inst: nat)
    ensures HeldAfter(p, [t], inst) == if t.inst == inst then Filled(p, Fill(t.side, t.px, t.qty)) else p
  {
    hide Filled;
    FillsGrow([], t, inst);
    FilledAllGrows(p, [], Fill(t.side, t.px, t.qty));
    assert [] + [t] == [t] && [] + [Fill(t.side, t.px, t.qty)] == [Fill(t.side, t.px, t.qty)];
  }

  lemma {:induction false} HeldFilled(p: Position, q: Position, fs: seq<Fill>)
    requires SameHeld(p, q)
    ensures SameHeld(FilledAll(p, fs), FilledAll(q, fs))
  {
    hide Filled;
    if fs != [] {
      HeldFilled(p, q, fs[..|fs| - 1]);
      FilledHeld(FilledAll(p, fs[..|fs| - 1]), FilledAll(q, fs[..|fs| - 1]), fs[|fs| - 1]);
    }
  }

  lemma HeldJoins(p: Position, ts: seq<Trade>, us: seq<Trade>, inst: nat)
    requires |us| <= 1
    ensures HeldAfter(p, ts + us, inst) == HeldAfter(HeldAfter(p, ts, inst), us, inst)
  {
    hide Filled, FilledAll, FillsOf;
    NoFills(HeldAfter(p, ts, inst), inst);
    if us == [] {
      assert ts + us == ts;
    } else {
      var t, q := us[0], HeldAfter(p, ts, inst);
      FillsGrow(ts, t, inst);
      FillsGrow([], t, inst);
      FilledAllGrows(p, FillsOf(ts, inst), Fill(t.side, t.px, t.qty));
      FilledAllGrows(q, [], Fill(t.side, t.px, t.qty));
      assert us == [t] && [] + us == us && [] + [Fill(t.side, t.px, t.qty)] == [Fill(t.side, t.px, t.qty)];
      assert FillsOf(ts, inst) + [] == FillsOf(ts, inst);
    }
  }

  /** Over every run each position is what its instrument's executions make of it, and its fees are theirs. */
  lemma {:induction false} RunPositions(c: Config, e: Engine, actions: seq<Action>, inst: nat)
    requires Ok(e) && Trades(e.acct, inst) && DistinctSlots(e.acct)
    ensures var r := Run(c, e, actions);
            && Trades(r.acct, inst) && DistinctSlots(r.acct)
            && SameHeld(FilledAll(InstOf(e.acct, inst).pos, FillsOf(Executions(c, e, actions), inst)),
                        InstOf(r.acct, inst).pos)
            && SameShape(e.acct, r.acct)
            && InstOf(r.acct, inst).pos.fees
               == InstOf(e.acct, inst).pos.fees + Booked(e.acct, Executions(c, e, actions), inst)
  {
    hide Step, Ok, SameShape, Executes, Filled, WellFormed, FilledAll, FillsOf, Booked;
    NothingBooked(e.acct, inst);
    if actions == [] {
      SameShapeRefl(e.acct);
      NoFills(InstOf(e.acct, inst).pos, inst);
    } else {
      var n := |actions| - 1;
      var b, p := Run(c, e, actions[..n]), InstOf(e.acct, inst).pos;
      RunPositions(c, e, actions[..n], inst);
      StepHolds(c, b, actions[n], inst);
      StepKeepsOk(c, b, actions[n]);
      SlotsKept(b.acct, Step(c, b, actions[n]).acct);
      SameShapeTrans(e.acct, b.acct, Step(c, b, actions[n]).acct);
      ShapeBooked(e.acct, b.acct, Executes(b, actions[n]), inst);
      var ts, us := Executions(c, e, actions[..n]), Executes(b, actions[n]);
      HeldJoins(p, ts, us, inst);
      BookedJoins(e.acct, ts, us, inst);
      HeldFilled(HeldAfter(p, ts, inst), InstOf(b.acct, inst).pos, FillsOf(us, inst));
    }
  }

  lemma NoFills(p: Position, inst: nat)
    ensures FillsOf([], inst) == [] && FilledAll(p, []) == p
  {
  }

  lemma SlotsKept(a: Acct, b: Acct)
    requires SameShape(a, b) && DistinctSlots(a)
    ensures DistinctSlots(b)
  {
  }

  // Balances and positions.

  /** The instrument's two assets are its own. */
  ghost predicate OwnAssets(a: Acct, inst: nat) {
    && Trades(a, inst) && InstOf(a, inst).base != InstOf(a, inst).quote
    && forall j :: Trades(a, j) && j != inst ==>
         {InstOf(a, j).base, InstOf(a, j).quote} !! {InstOf(a, inst).base, InstOf(a, inst).quote}
  }

  lemma WholeMoney(i: Inst, x: int, y: int)
    requires i.tlExp >= 0
    ensures TlToMoney(i, x + y) == TlToMoney(i, x) + TlToMoney(i, y) && TlToMoney(i, -x) == -TlToMoney(i, x)
    ensures TlToMoney(i, 0) == 0
  {
    var m := Pow10(i.tlExp);
    Distribute(i.tlMul, x, y);
    Distribute(m, x * i.tlMul, y * i.tlMul);
    Distribute(m, 0, x * i.tlMul);
  }

  ghost predicate Sized(ts: seq<Trade>) {
    forall j :: 0 <= j < |ts| ==> ts[j].qty >= 0
  }

  /** No other instrument trades in its assets, nor its base in the quote or the reverse. */
  lemma {:induction false} OwnNone(a: Acct, ts: seq<Trade>, inst: nat)
    requires OwnAssets(a, inst)
    ensures Lots(a, ts, InstOf(a, inst).quote) == 0 && Cash(a, ts, InstOf(a, inst).base) == 0
  {
    hide Notional;
    if ts != [] {
      OwnNone(a, ts[..|ts| - 1], inst);
    }
  }

  lemma {:induction false} OwnLots(a: Acct, ts: seq<Trade>, inst: nat)
    requires OwnAssets(a, inst) && Sized(ts)
    ensures var i := InstOf(a, inst);
            Lots(a, ts, i.base) == FilledAll(FLAT, FillsOf(ts, inst)).qty * i.basePerLot
  {
    hide Filled, FilledAll, FillsOf;
    NoFills(FLAT, inst);
    if ts != [] {
      var n := |ts| - 1;
      OwnLots(a, ts[..n], inst);
      OneMoreFill(ts[..n], ts[n], inst);
      assert ts[..n] + [ts[n]] == ts;
      LotsAdd(FilledAll(FLAT, FillsOf(ts[..n], inst)).qty, ts[n].qty, InstOf(a, inst).basePerLot);
    }
  }

  /** An execution of the instrument moves its position by its lots. */
  lemma OneMoreFill(ts: seq<Trade>, t: Trade, inst: nat)
    requires t.qty >= 0
    ensures FilledAll(FLAT, FillsOf(ts + [t], inst)).qty
            == FilledAll(FLAT, FillsOf(ts, inst)).qty
               + if t.inst != inst then 0 else if t.side == Buy then t.qty else -t.qty
  {
    hide Filled, FilledAll, FillsOf;
    FillsGrow(ts, t, inst);
    if t.inst == inst {
      FilledAllGrows(FLAT, FillsOf(ts, inst), Fill(t.side, t.px, t.qty));
      FillIsCashExact(FilledAll(FLAT, FillsOf(ts, inst)), Fill(t.side, t.px, t.qty));
    } else {
      assert FillsOf(ts, inst) + [] == FillsOf(ts, inst);
    }
  }

  lemma LotsAdd(x: int, y: int, m: int)
    ensures (x + y) * m == x * m + y * m && (x - y) * m == x * m - y * m && (x + -y) * m == x * m - y * m
  {
  }

  lemma CashGrows(fs: seq<Fill>, f: Fill)
    ensures CashFlow(fs + [f]) == CashFlow(fs) + if f.side == Buy then -(f.px * f.qty) else f.px * f.qty
  {
    assert (fs + [f])[..|fs|] == fs;
  }

  lemma NoCash()
    ensures CashFlow([]) == 0
  {
  }

  lemma {:induction false} OwnCash(a: Acct, ts: seq<Trade>, inst: nat)
    requires OwnAssets(a, inst) && InstOf(a, inst).tlExp >= 0
    ensures var i := InstOf(a, inst);
            Cash(a, ts, i.quote) == TlToMoney(i, CashFlow(FillsOf(ts, inst)))
  {
    hide TlToMoney, CashFlow;
    var i := InstOf(a, inst);
    if ts == [] {
      NoMoney(i);
      assert CashFlow([]) == 0 by { NoCash(); }
    } else {
      var n := |ts| - 1;
      var t, front := ts[n], FillsOf(ts[..n], inst);
      OwnCash(a, ts[..n], inst);
      if t.inst == inst {
        CashGrows(front, Fill(t.side, t.px, t.qty));
        WholeMoney(i, t.px * t.qty, 0);
        WholeMoney(i, CashFlow(front), t.px * t.qty);
        WholeMoney(i, CashFlow(front), -(t.px * t.qty));
      } else {
        assert front + [] == front;
      }
    }
  }

  lemma {:induction false} LegalSizes(c: Config, e: Engine, actions: seq<Action>)
    requires Ok(e) && LegalRun(c, e, actions)
    ensures Sized(Executions(c, e, actions))
  {
    hide Step, Ok, FindRow;
    if actions != [] {
      LegalFront(c, e, actions);
      LegalSizes(c, e, actions[..|actions| - 1]);
    }
  }

  /**
   Over every legal run from a flat position an instrument's own base asset gains exactly its lots, and its own quote
   asset, where the conversion does not divide, the cash of its fills, which is realized less cost; fees apart.
   */
  lemma PositionIsMoney(c: Config, e: Engine, actions: seq<Action>, inst: nat)
    requires Ok(e) && LegalRun(c, e, actions) && DistinctSlots(e.acct) && OwnAssets(e.acct, inst)
    requires SameHeld(FLAT, InstOf(e.acct, inst).pos)
    ensures var r, ts, i := Run(c, e, actions), Executions(c, e, actions), InstOf(e.acct, inst);
            && Trades(r.acct, inst) && i.base < |e.acct.bal| == |r.acct.bal| && i.quote < |e.acct.bal|
            && var p := InstOf(r.acct, inst).pos;
               && r.acct.bal[i.base].total + FeesIn(e.acct, ts, i.base)
                  == e.acct.bal[i.base].total + p.qty * i.basePerLot
               && p.realized - p.cost == CashFlow(FillsOf(ts, inst))
               && (i.tlExp >= 0 ==>
                     r.acct.bal[i.quote].total + FeesIn(e.acct, ts, i.quote)
                     == e.acct.bal[i.quote].total + TlToMoney(i, p.realized - p.cost))
  {
    hide Run, Executions, FillsOf, FilledAll, CashFlow, Lots, Cash, FeesIn, TlToMoney, LegalRun, DistinctSlots;
    var i, ts := InstOf(e.acct, inst), Executions(c, e, actions);
    assert i.base < |e.acct.bal| && i.quote < |e.acct.bal|;
    RunMoney(c, e, actions, i.base);
    RunMoney(c, e, actions, i.quote);
    RunPositions(c, e, actions, inst);
    HeldFilled(FLAT, InstOf(e.acct, inst).pos, FillsOf(ts, inst));
    LegalSizes(c, e, actions);
    OwnNone(e.acct, ts, inst);
    OwnLots(e.acct, ts, inst);
    if i.tlExp >= 0 {
      OwnCash(e.acct, ts, inst);
    }
    SizedFills(ts, inst);
    AverageCostExact(FillsOf(ts, inst));
  }

  // The mark.

  /** What a marked position has earned in tick-lots: cash flow and lots at the mid, within the one truncated half. */
  lemma MarkedToMarket(i: Inst, fs: seq<Fill>, mark2: int) returns (earned: int)
    requires (forall f :: f in fs ==> f.qty >= 0) && mark2 != 0
    requires SameHeld(FilledAll(FLAT, fs), i.pos) && i.pos.mark2 == mark2
    ensures Unrealized(i) == TlToMoney(i, earned - i.pos.realized)
    ensures 2 * CashFlow(fs) + i.pos.qty * mark2 - 1 <= 2 * earned <= 2 * CashFlow(fs) + i.pos.qty * mark2 + 1
  {
    hide FilledAll, CashFlow, TlToMoney;
    AverageCostExact(fs);
    if i.pos.qty == 0 {
      earned := i.pos.realized;
      NoMoney(i);
    } else {
      earned := i.pos.realized + TruncDiv(i.pos.qty * mark2 - 2 * i.pos.cost, 2);
    }
  }

  lemma NoMoney(i: Inst)
    ensures TlToMoney(i, 0) == 0
  {
  }

  /** Bought or sold at one price and marked there, a position shows neither profit nor loss. */
  lemma EntryShowsNone(i: Inst, fs: seq<Fill>, px: int)
    requires forall f :: f in fs ==> f.qty >= 0 && f.px == px
    requires SameHeld(FilledAll(FLAT, fs), i.pos) && i.pos.mark2 == 2 * px
    ensures Unrealized(i) == 0
  {
    hide FilledAll, TlToMoney;
    AvgPxWithinFills(fs, px, px);
    NoMoney(i);
    CostAtOne(i.pos, px);
  }

  lemma CostAtOne(p: Position, px: int)
    requires CostWithin(p, px, px)
    ensures p.qty * (2 * px) - 2 * p.cost == 0
  {
    assert px * -p.qty == -(px * p.qty);
    assert p.qty * (2 * px) == 2 * (px * p.qty);
    assert p.cost == px * p.qty;
  }

  /** The same of a run: its mark is the mid of the quote, and its fills those executed on the instrument. */
  lemma RunMarked(c: Config, e: Engine, actions: seq<Action>, inst: nat, bid: int, ask: int) returns (earned: int)
    requires Ok(e) && LegalRun(c, e, actions) && DistinctSlots(e.acct) && Trades(e.acct, inst)
    requires SameHeld(FLAT, InstOf(e.acct, inst).pos)
    requires bid != EMPTY_BID && ask != EMPTY_ASK && bid + ask != 0
    ensures Trades(Run(c, e, actions).acct, inst)
    ensures var i := InstOf(Marked(Run(c, e, actions).acct, inst, bid, ask), inst);
            var cash := CashFlow(FillsOf(Executions(c, e, actions), inst));
            && Unrealized(i) == TlToMoney(i, earned - i.pos.realized)
            && 2 * cash + i.pos.qty * (bid + ask) - 1 <= 2 * earned <= 2 * cash + i.pos.qty * (bid + ask) + 1
  {
    hide Run, Executions, FillsOf, FilledAll, CashFlow, TlToMoney, LegalRun, Unrealized, EquityOf;
    var r, fs := Run(c, e, actions), FillsOf(Executions(c, e, actions), inst);
    RunPositions(c, e, actions, inst);
    HeldFilled(FLAT, InstOf(e.acct, inst).pos, fs);
    LegalSizes(c, e, actions);
    SizedFills(Executions(c, e, actions), inst);
    earned := MarkedToMarket(InstOf(Marked(r.acct, inst, bid, ask), inst), fs, bid + ask);
  }

  lemma {:induction false} SizedFills(ts: seq<Trade>, inst: nat)
    requires Sized(ts)
    ensures forall f :: f in FillsOf(ts, inst) ==> f.qty >= 0
  {
    if ts != [] {
      SizedFills(ts[..|ts| - 1], inst);
    }
  }

  // Equity.

  lemma {:induction false} QuoteFees(a: Acct, ts: seq<Trade>, inst: nat)
    requires OwnAssets(a, inst) && forall j :: 0 <= j < |ts| ==> !ts[j].feeInBase
    ensures Booked(a, ts, inst) == FeesIn(a, ts, InstOf(a, inst).quote)
  {
    hide Notional;
    if ts != [] {
      QuoteFees(a, ts[..|ts| - 1], inst);
    }
  }

  lemma MoneyBetween(i: Inst, x: int, y: int)
    requires i.tlExp >= 0 && y - 1 <= x <= y + 1
    ensures TlToMoney(i, y) - TlToMoney(i, 1) <= TlToMoney(i, x) <= TlToMoney(i, y) + TlToMoney(i, 1)
  {
    hide TlToMoney;
    WholeMoney(i, 1, 0);
    if x == y + 1 {
      WholeMoney(i, y, 1);
    } else if x == y - 1 {
      WholeMoney(i, y, -1);
    }
    OneTick(i);
  }

  lemma OneTick(i: Inst)
    ensures i.tlExp >= 0 ==> TlToMoney(i, 1) >= 0
  {
  }

  /**
   Equity is what selling everything at the mark would have earned: for one instrument whose fees are in quote and
   whose conversion does not divide, the gain of the quote balance and the lots at the mid, within half a tick-lot.
   */
  lemma EquityIsWorth(c: Config, e: Engine, actions: seq<Action>, inst: nat, bid: int, ask: int)
    requires Ok(e) && LegalRun(c, e, actions) && DistinctSlots(e.acct) && OwnAssets(e.acct, inst)
    requires |e.acct.insts| == 1 && InstOf(e.acct, inst).pos == FLAT && InstOf(e.acct, inst).tlExp >= 0
    requires forall j :: 0 <= j < |Executions(c, e, actions)| ==> !Executions(c, e, actions)[j].feeInBase
    requires bid != EMPTY_BID && ask != EMPTY_ASK && bid + ask != 0
    ensures Trades(Run(c, e, actions).acct, inst)
    ensures var b, i := Marked(Run(c, e, actions).acct, inst, bid, ask), InstOf(e.acct, inst);
            && i.quote < |e.acct.bal| == |b.bal|
            && var gained := b.bal[i.quote].total - e.acct.bal[i.quote].total;
               var worth := 2 * gained + TlToMoney(i, InstOf(b, inst).pos.qty * (bid + ask));
               worth - TlToMoney(i, 1) <= 2 * EquityOf(b.insts) <= worth + TlToMoney(i, 1)
  {
    hide Run, Executions, FillsOf, FilledAll, CashFlow, TlToMoney, LegalRun, Lots, Cash, FeesIn, Booked;
    var r, ts, i := Run(c, e, actions), Executions(c, e, actions), InstOf(e.acct, inst);
    RunPositions(c, e, actions, inst);
    PositionIsMoney(c, e, actions, inst);
    QuoteFees(e.acct, ts, inst);
    MarkMoves(r.acct, inst, bid, ask);
    var earned := RunMarked(c, e, actions, inst, bid, ask);
    OneEquity(r.acct, inst, bid, ask, earned);
    var cash := CashFlow(FillsOf(ts, inst));
    var n := InstOf(Marked(r.acct, inst, bid, ask), inst).pos.qty * (bid + ask);
    MoneyBetween(i, 2 * earned, 2 * cash + n);
    WholeMoney(i, 2 * cash, n);
    WholeMoney(i, cash, cash);
    WholeMoney(i, earned, earned);
    SameConversion(e.acct, r.acct, inst, bid, ask);
  }

  lemma SameConversion(a: Acct, b: Acct, inst: nat, bid: int, ask: int)
    requires SameShape(a, b) && WellFormed(b) && Trades(a, inst) && Trades(b, inst)
    ensures var i := InstOf(Marked(b, inst, bid, ask), inst);
            forall x :: TlToMoney(i, x) == TlToMoney(InstOf(a, inst), x)
  {
    hide EquityOf;
    assert InstOf(b, inst) == InstOf(a, inst).(pos := InstOf(b, inst).pos);
  }

  lemma OneEquity(a: Acct, inst: nat, bid: int, ask: int, earned: int)
    requires WellFormed(a) && Trades(a, inst) && |a.insts| == 1
    requires var i := InstOf(Marked(a, inst, bid, ask), inst);
             i.tlExp >= 0 && Unrealized(i) == TlToMoney(i, earned - i.pos.realized)
    ensures var b := Marked(a, inst, bid, ask);
            EquityOf(b.insts) == TlToMoney(InstOf(b, inst), earned) - InstOf(a, inst).pos.fees
  {
    hide TlToMoney, Unrealized;
    var b := Marked(a, inst, bid, ask);
    var i := InstOf(b, inst);
    WholeMoney(i, i.pos.realized, earned - i.pos.realized);
    assert b.insts == [i] && [i][..0] == [];
    OneOnly(i);
  }

  lemma OneOnly(i: Inst)
    ensures EquityOf([i]) == Realized(i) + Unrealized(i) - i.pos.fees
  {
    assert [i][..0] == [];
    assert EquityOf([]) == 0;
  }
}
