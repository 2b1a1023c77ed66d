/**
 What a request must meet, reason by reason, and in which order the reasons are looked for: a request
 goes through if and only if none applies, and else the first that does is reported and nothing is done.
 */
module Acceptance {
  import opened Common
  import opened OrderTypes
  import opened Positions
  import opened AccountModule
  import opened Engine
  import opened NullVenue
  import opened RatedRuns
  import opened RateModelModule
  import opened ExecContextModule
  import ExecOrderTable

  /** A limit that 0 switches off. */
  predicate Beyond(limit: int, value: int) {
    limit != 0 && value > limit
  }

  /** What the side's asset has free. */
  function Free(a: Acct, i: Inst, side: Side): int
    requires i.base < |a.bal| && i.quote < |a.bal|
  {
    if side == Buy then a.bal[i.quote].total - a.bal[i.quote].reserved
    else a.bal[i.base].total - a.bal[i.base].reserved
  }

  function Lock(i: Inst, side: Side, px: int, qty: int): int {
    if side == Buy then Notional(i, px, qty) else qty * i.basePerLot
  }

  /** The position once the side's open orders and so many lots more have filled. */
  function Exposure(e: Engine, inst: nat, side: Side, lots: int): nat
    requires Trades(e.acct, inst)
  {
    var open := SumRows(e.rows, LotsOf(inst, side));
    var pos := InstOf(e.acct, inst).pos.qty;
    Abs(if side == Buy then pos + open + lots else pos - open - lots)
  }

  /** Twice the price is further from bid plus ask than the band's ten-thousandths of it. */
  predicate OutOfBand(bp: real, px: int, mid2: int) {
    bp > 0.0 && px > 0 && mid2 > 0 && Abs(2 * px - mid2) as real * 10000.0 > bp * mid2 as real
  }

  lemma BandIs(bp: real, px: int, mid2: int)
    ensures InBand(bp, px, mid2) <==> !OutOfBand(bp, px, mid2)
  {
    if bp > 0.0 && px > 0 && mid2 > 0 {
      var mid := mid2 as real / 2.0;
      var dev := (px as real - mid) / mid;
      assert dev * mid == px as real - mid;
      Scale(dev * 10000.0, bp, mid);
      Scale(-bp, dev * 10000.0, mid);
    }
  }

  lemma Scale(x: real, y: real, z: real)
    requires z > 0.0
    ensures x <= y <==> x * z <= y * z
  {
    if x <= y {
      assert (y - x) * z >= 0.0;
    } else {
      assert (x - y) * z > 0.0;
    }
  }

  /** The rate counter has room for the cost. */
  predicate InBudget(m: Tariff, counters: seq<Counter>, inst: nat, cost: nat, now: int) {
    inst < |counters|
    && (!m.enabled || CountAt(m.params, counters[inst], now) + cost as real <= m.params.max - m.params.margin)
  }

  // New orders.

  /** Half of bid plus ask prices a market order. */
  function OrderPx(q: Request, v: Env): int {
    if q.px > 0 then q.px else TruncDiv(v.mid2, 2)
  }

  /** Whether a new order fails for this reason. */
  ghost predicate SubmitFails(c: Config, m: Tariff, x: Rated, q: Request, v: Env, why: RejectReason)
    requires Ok(x.s.e)
  {
    var e := x.s.e;
    var row := c.instruments(q.instrument);
    match why
    case Kill => v.kill
    case Pause => v.pause
    case NotTraded => !Trades(e.acct, q.instrument)
    case NotAllowed => q.instrument !in c.allowed
    case InstrumentStatus =>
      !(|| row.status == Online
        || (row.status == PostOnlyStatus && q.tif == PostOnly)
        || (row.status == LimitOnly && q.ordType == Limit))
    case BadOrder => q.qty <= 0 || (q.ordType == Limit && q.px <= 0)
    case MinQty => 0 < row.minQtyLots && q.qty < row.minQtyLots
    case MaxOrderQty => Beyond(c.lim.maxOrderQty, q.qty)
    case MaxOpenOrders => c.lim.maxOpenOrders != 0 && |e.rows| >= c.lim.maxOpenOrders
    case OpenOrderLimit => c.rateEnabled && SumRows(e.rows, OneOf(q.instrument)) >= c.rateMaxOpen
    case PriceBand => OutOfBand(c.lim.priceBandBp, q.px, v.mid2)
    case RateLimit => !InBudget(m, x.counters, q.instrument, 1, v.now)
    case TableFull => |e.rows| == e.maxRows
    case UnknownOrder => false
    case RingFull => |x.s.q| + (if q.tif == IOC || q.tif == FOK then 2 else 1) > x.s.room
    case _ => Trades(e.acct, q.instrument) && SubmitFailsMoney(c, e, q, v, why)
  }

  ghost predicate SubmitFailsMoney(c: Config, e: Engine, q: Request, v: Env, why: RejectReason)
    requires Ok(e) && Trades(e.acct, q.instrument)
  {
    var i, px := InstOf(e.acct, q.instrument), OrderPx(q, v);
    var min := c.instruments(q.instrument).minNotional;
    match why
    case MinNotional => 0 < min && Notional(i, px, q.qty) < min
    case MaxOrderNotional => Beyond(c.lim.maxOrderNotional, Notional(i, px, q.qty))
    case MaxPosition => Beyond(c.lim.maxPosition, Exposure(e, q.instrument, q.side, q.qty))
    case MaxPositionNotional =>
      Beyond(c.lim.maxPositionNotional, Notional(i, px, Exposure(e, q.instrument, q.side, q.qty)))
    case InsufficientQuote => q.side == Buy && c.lim.spotOnly && Lock(i, Buy, px, q.qty) > Free(e.acct, i, Buy)
    case InsufficientBase => q.side == Sell && c.lim.spotOnly && Lock(i, Sell, px, q.qty) > Free(e.acct, i, Sell)
    case _ => false
  }

  /** The order in which a submit looks for reasons. */
  function SubmitRank(why: RejectReason): nat {
    match why
    case Kill => 1 case Pause => 2 case NotTraded => 3 case NotAllowed => 4 case InstrumentStatus => 5
    case BadOrder => 6 case MinQty => 7 case MinNotional => 8 case MaxOrderQty => 9 case MaxOrderNotional => 10
    case MaxPosition => 11 case MaxPositionNotional => 12 case MaxOpenOrders => 13 case OpenOrderLimit => 14
    case PriceBand => 15 case InsufficientQuote => 16 case InsufficientBase => 16 case RateLimit => 17
    case TableFull => 18 case RingFull => 19 case UnknownOrder => 20 case NoReject => 21
  }

  /** No reason applies; or this one does and none before it. */
  ghost predicate SubmitDecides(c: Config, m: Tariff, x: Rated, q: Request, v: Env, r: RejectReason)
    requires Ok(x.s.e)
  {
    && (r != NoReject ==> SubmitFails(c, m, x, q, v, r))
    && forall why :: why != NoReject && SubmitRank(why) < SubmitRank(r) ==> !SubmitFails(c, m, x, q, v, why)
  }

  /** What stops a submit, the queue's room included. */
  function SubmitStop(c: Config, m: Tariff, x: Rated, q: Request, v: Env): RejectReason
    requires Ok(x.s.e)
  {
    var r := SubmitVerdict(c, x.s.e, q, v.(rateOk := Allowed(m, x.counters, q.instrument, Add, 0, v.now)));
    if r == NoReject && !Fits(x.s, NewReq, q.tif) then RingFull else r
  }

  lemma PositionCheckIs(c: Config, e: Engine, inst: nat, side: Side, lots: int, px: int)
    requires Trades(e.acct, inst)
    ensures var w := Exposure(e, inst, side, lots);
            PositionCheck(c, e, inst, side, lots, px) ==
              if Beyond(c.lim.maxPosition, w) then MaxPosition
              else if Beyond(c.lim.maxPositionNotional, Notional(InstOf(e.acct, inst), px, w)) then MaxPositionNotional
              else NoReject
  {
    hide SumRows, Notional;
  }

  lemma FundsAre(a: Acct, inst: nat, side: Side, px: int, qty: int)
    requires WellFormed(a) && Trades(a, inst)
    ensures Available(a, inst, side) == Free(a, InstOf(a, inst), side)
    ensures Reservation(InstOf(a, inst), side, px, qty) == Lock(InstOf(a, inst), side, px, qty)
  {
    hide Notional;
  }

  lemma SubmitStopFails(c: Config, m: Tariff, x: Rated, q: Request, v: Env)
    requires Ok(x.s.e) && SubmitStop(c, m, x, q, v) != NoReject
    ensures SubmitFails(c, m, x, q, v, SubmitStop(c, m, x, q, v))
  {
    hide SumRows, CountAt, WellFormed, InBand, OutOfBand, Notional, PositionCheck, Exposure, Available, Free,
         Reservation, Lock;
    BandIs(c.lim.priceBandBp, q.px, v.mid2);
    if Trades(x.s.e.acct, q.instrument) {
      PositionCheckIs(c, x.s.e, q.instrument, q.side, q.qty, OrderPx(q, v));
      FundsAre(x.s.e.acct, q.instrument, q.side, OrderPx(q, v), q.qty);
    }
  }

  /** The gate's verdict on a new order, the full table included. */
  function EntryVerdict(c: Config, m: Tariff, x: Rated, q: Request, v: Env): RejectReason
    requires Ok(x.s.e)
  {
    SubmitVerdict(c, x.s.e, q, v.(rateOk := Allowed(m, x.counters, q.instrument, Add, 0, v.now)))
  }

  lemma EntryNoneBefore(c: Config, m: Tariff, x: Rated, q: Request, v: Env, why: RejectReason)
    requires Ok(x.s.e) && Trades(x.s.e.acct, q.instrument) && why !in {NoReject, RingFull, UnknownOrder}
    requires SubmitRank(why) < SubmitRank(EntryVerdict(c, m, x, q, v))
    ensures !SubmitFails(c, m, x, q, v, why)
  {
    hide SumRows, CountAt, WellFormed, InBand, OutOfBand, Notional, PositionCheck, Exposure, Available, Free,
         Reservation, Lock;
    BandIs(c.lim.priceBandBp, q.px, v.mid2);
    PositionCheckIs(c, x.s.e, q.instrument, q.side, q.qty, OrderPx(q, v));
    FundsAre(x.s.e.acct, q.instrument, q.side, OrderPx(q, v), q.qty);
  }

  /** Without its instrument an order stops at the third reason. */
  lemma UntradedStops(c: Config, m: Tariff, x: Rated, q: Request, v: Env)
    requires Ok(x.s.e)
    ensures !Trades(x.s.e.acct, q.instrument) ==> SubmitRank(EntryVerdict(c, m, x, q, v)) <= 3
    ensures EntryVerdict(c, m, x, q, v) == NoReject || SubmitRank(EntryVerdict(c, m, x, q, v)) <= 18
    ensures EntryVerdict(c, m, x, q, v) != Kill ==> !v.kill
    ensures EntryVerdict(c, m, x, q, v) !in {Kill, Pause} ==> !v.pause
  {
    hide SumRows, CountAt, WellFormed, InBand, OutOfBand, Notional, PositionCheck, Exposure, Available, Free,
         Reservation, Lock;
    BandIs(c.lim.priceBandBp, q.px, v.mid2);
    if Trades(x.s.e.acct, q.instrument) {
      PositionCheckIs(c, x.s.e, q.instrument, q.side, q.qty, OrderPx(q, v));
    }
  }

  lemma SubmitNoneBefore(c: Config, m: Tariff, x: Rated, q: Request, v: Env, why: RejectReason)
    requires Ok(x.s.e) && why != NoReject && SubmitRank(why) < SubmitRank(SubmitStop(c, m, x, q, v))
    ensures !SubmitFails(c, m, x, q, v, why)
  {
    hide SumRows, SubmitVerdict, SubmitFailsMoney;
    UntradedStops(c, m, x, q, v);
    if Trades(x.s.e.acct, q.instrument) && why !in {RingFull, UnknownOrder} {
      EntryNoneBefore(c, m, x, q, v, why);
    }
  }

  lemma SubmitStopDecides(c: Config, m: Tariff, x: Rated, q: Request, v: Env)
    requires Ok(x.s.e)
    ensures SubmitDecides(c, m, x, q, v, SubmitStop(c, m, x, q, v))
  {
    hide SubmitStop, SubmitFails, SubmitRank;
    if SubmitStop(c, m, x, q, v) != NoReject {
      SubmitStopFails(c, m, x, q, v);
    }
    forall why | why != NoReject && SubmitRank(why) < SubmitRank(SubmitStop(c, m, x, q, v))
      ensures !SubmitFails(c, m, x, q, v, why)
    {
      SubmitNoneBefore(c, m, x, q, v, why);
    }
  }

  /** The row of an accepted order, under the next id of its generation. */
  function Accepted(e: Engine, q: Request, v: Env): OrderRow {
    OrderRow(e.gen * COUNTER_IDS + e.counter + 1, OrderPx(q, v), q.qty, q.qty, 0, 0, 0, q.instrument, q.side, q.tif,
             q.ordType, PendingNew, false, false, v.now, 0)
  }

  /** More of the side's asset is reserved. */
  function Locked(a: Acct, i: Inst, side: Side, amount: int): Acct
    requires i.base < |a.bal| && i.quote < |a.bal|
  {
    var k := if side == Buy then i.quote else i.base;
    a.(bal := a.bal[k := Balance(a.bal[k].total, a.bal[k].reserved + amount)])
  }

  /** What the reason counts as; only a full queue is not a risk reject. */
  function Refusals(st: Stats, why: RejectReason): Stats {
    st.(lastReject := why,
        riskRejects := if why == RingFull then st.riskRejects else st.riskRejects + 1,
        ringFullRejects := if why == RingFull then st.ringFullRejects + 1 else st.ringFullRejects)
  }

  /** A counter that has paid for an operation. */
  function Paying(m: Tariff, counters: seq<Counter>, inst: nat, cost: nat, now: int): seq<Counter>
    requires inst < |counters|
  {
    if !m.enabled then counters
    else
      counters[inst := Counter(CountAt(m.params, counters[inst], now) + cost as real, Max(now, counters[inst].lastNs))]
  }

  /** Everything after a submit that stops for a reason, or goes through. */
  ghost predicate SubmitLeaves(m: Tariff, x: Rated, q: Request, v: Env, r: RejectReason, y: Rated)
    requires Ok(x.s.e)
  {
    var e := x.s.e;
    if r == NoReject then
      Trades(e.acct, q.instrument) && q.instrument < |x.counters|
      && var row, i := Accepted(e, q, v), InstOf(e.acct, q.instrument);
         y == Rated(x.s.(e := e.(rows := e.rows + [row], counter := e.counter + 1,
                                 acct := Locked(e.acct, i, q.side, Lock(i, q.side, row.px, q.qty)),
                                 st := e.st.(ordersNew := e.st.ordersNew + 1)),
                         q := x.s.q + [Answer(row.id, Acked)]
                              + if q.tif == IOC || q.tif == FOK then [Answer(row.id, Expired)] else []),
                    Paying(m, x.counters, q.instrument, 1, v.now))
    else
      y == x.(s := x.s.(e := e.(counter := if r == RingFull then e.counter + 1 else e.counter,
                                st := Refusals(e.st, r))))
  }

  lemma GoesThrough(c: Config, m: Tariff, x: Rated, q: Request, v: Env, t: int)
    requires Ok(x.s.e) && IdsIssued(x.s.e) && x.s.e.counter + 1 < COUNTER_IDS
    requires SubmitStop(c, m, x, q, v) == NoReject
    ensures SubmitLeaves(m, x, q, v, NoReject, RStep(c, m, x, Timed(NSubmit(q, v), t)))
  {
    hide SubmitVerdict, CountAt, IdsIssued, FindRow, WellFormed, Notional, Submit, SameShape, Accepted, Locked, Lock;
    var w := v.(rateOk := Allowed(m, x.counters, q.instrument, Add, 0, v.now));
    SubmitTrades(c, m, x, q, v);
    EntrySubmits(c, x.s.e, q, w);
    NextIdIs(x.s.e, q, v);
  }

  lemma NextIdIs(e: Engine, q: Request, v: Env)
    requires e.counter + 1 < COUNTER_IDS
    ensures Accepted(e, q, v).id == NextId(e.gen, e.counter)
  {
  }

  lemma EntrySubmits(c: Config, e: Engine, q: Request, v: Env)
    requires Ok(e) && IdsIssued(e) && e.counter + 1 < COUNTER_IDS && SubmitVerdict(c, e, q, v) == NoReject
    requires Trades(e.acct, q.instrument)
    ensures var row, i := Accepted(e, q, v), InstOf(e.acct, q.instrument);
            Submit(c, e, q, v, true)
            == e.(rows := e.rows + [row], counter := e.counter + 1,
                  acct := Locked(e.acct, i, q.side, Lock(i, q.side, row.px, q.qty)),
                  st := e.st.(ordersNew := e.st.ordersNew + 1))
    ensures Accepted(e, q, v.(rateOk := true)) == Accepted(e, q, v.(rateOk := false))
  {
    hide SubmitVerdict, IdsIssued, FindRow, WellFormed, Notional, Erased, Inserted, SameShape;
    InsertSucceeds(c, e, q, v);
  }

  lemma SubmitTrades(c: Config, m: Tariff, x: Rated, q: Request, v: Env)
    requires Ok(x.s.e) && SubmitStop(c, m, x, q, v) == NoReject
    ensures Trades(x.s.e.acct, q.instrument) && q.instrument < |x.counters|
  {
    hide SumRows, CountAt, WellFormed, InBand, OutOfBand, Notional;
  }

  lemma Stops(c: Config, m: Tariff, x: Rated, q: Request, v: Env, t: int)
    requires Ok(x.s.e) && IdsIssued(x.s.e) && x.s.e.counter + 1 < COUNTER_IDS
    requires SubmitStop(c, m, x, q, v) != NoReject
    ensures SubmitLeaves(m, x, q, v, SubmitStop(c, m, x, q, v), RStep(c, m, x, Timed(NSubmit(q, v), t)))
  {
    hide CheckNew, CountAt, IdsIssued, FindRow, WellFormed, Notional, Erased, Inserted;
    var w := v.(rateOk := Allowed(m, x.counters, q.instrument, Add, 0, v.now));
    if SubmitVerdict(c, x.s.e, q, w) == NoReject {
      InsertSucceeds(c, x.s.e, q, w);
    } else {
      VerdictIsRisk(c, x.s.e, q, w);
    }
  }

  lemma VerdictIsRisk(c: Config, e: Engine, q: Request, v: Env)
    requires WellFormed(e.acct)
    ensures SubmitVerdict(c, e, q, v) != RingFull
  {
    hide SumRows, WellFormed, Notional;
  }

  /**
   A submit goes through if and only if no reason applies, and then does all of its work; else it reports the
   first reason that does, and leaves rows, queue, account and rate counters alone: a full queue spends an id.
   */
  lemma SubmitDecided(c: Config, m: Tariff, x: Rated, q: Request, v: Env, t: int) returns (r: RejectReason)
    requires Ok(x.s.e) && IdsIssued(x.s.e) && x.s.e.counter + 1 < COUNTER_IDS
    ensures r == SubmitStop(c, m, x, q, v) && SubmitDecides(c, m, x, q, v, r)
    ensures SubmitLeaves(m, x, q, v, r, RStep(c, m, x, Timed(NSubmit(q, v), t)))
  {
    hide SubmitLeaves, SubmitDecides, SubmitStop, RStep;
    r := SubmitStop(c, m, x, q, v);
    SubmitStopDecides(c, m, x, q, v);
    if r == NoReject {
      GoesThrough(c, m, x, q, v, t);
    } else {
      Stops(c, m, x, q, v, t);
    }
  }

  // Amends.

  /** Whether an amend of the order to px and a new total qty fails for this reason. */
  ghost predicate ReplaceFails(c: Config, m: Tariff, x: Rated, id: nat, px: int, qty: int, v: Env, why: RejectReason)
    requires Ok(x.s.e)
  {
    var e := x.s.e;
    var p := FindRow(e.rows, id);
    match why
    case UnknownOrder => p.None? || e.rows[p.value].pendingCancel || e.rows[p.value].pendingReplace
    case Kill => v.kill
    case Pause => v.pause
    case PriceBand => OutOfBand(c.lim.priceBandBp, px, v.mid2)
    case RingFull => |x.s.q| + 1 > x.s.room
    case _ => p.Some? && ReplaceFailsRow(c, m, x, e.rows[p.value], px, qty, v, why)
  }

  ghost predicate ReplaceFailsRow(c: Config, m: Tariff, x: Rated, r: OrderRow, px: int, qty: int, v: Env,
                                  why: RejectReason)
    requires Ok(x.s.e) && Trades(x.s.e.acct, r.instrument)
  {
    var e := x.s.e;
    var i, row, left := InstOf(e.acct, r.instrument), c.instruments(r.instrument), qty - r.cum;
    var growth := left - r.leaves;
    var draw := Lock(i, r.side, px, left) - Lock(i, r.side, r.px, r.leaves);
    match why
    case InstrumentStatus => row.status in {Halted, CancelOnly}
    case BadOrder => left <= 0 || px <= 0
    case MinQty => 0 < row.minQtyLots && qty < row.minQtyLots
    case MaxOrderQty => Beyond(c.lim.maxOrderQty, qty)
    case MaxOrderNotional => Beyond(c.lim.maxOrderNotional, Notional(i, px, qty))
    case MaxPosition => growth > 0 && Beyond(c.lim.maxPosition, Exposure(e, r.instrument, r.side, growth))
    case MaxPositionNotional =>
      growth > 0 && Beyond(c.lim.maxPositionNotional, Notional(i, px, Exposure(e, r.instrument, r.side, growth)))
    case InsufficientQuote => r.side == Buy && c.lim.spotOnly && draw > Free(e.acct, i, Buy)
    case InsufficientBase => r.side == Sell && c.lim.spotOnly && draw > Free(e.acct, i, Sell)
    case RateLimit => !InBudget(m, x.counters, r.instrument, Cost(Amend, Aged(r, v.now)), v.now)
    case _ => false
  }

  /** Time since the order was acked, or none before. */
  function Aged(r: OrderRow, now: int): int {
    if r.tAck == 0 then 0 else now - r.tAck
  }

  /** The order in which a replace looks for reasons. */
  function ReplaceRank(why: RejectReason): nat {
    match why
    case UnknownOrder => 1 case Kill => 2 case Pause => 3 case InstrumentStatus => 4 case BadOrder => 5
    case MinQty => 6 case MaxOrderQty => 7 case MaxOrderNotional => 8 case MaxPosition => 9
    case MaxPositionNotional => 10 case PriceBand => 11 case InsufficientQuote => 12 case InsufficientBase => 12
    case RateLimit => 13 case RingFull => 14 case NoReject => 16 case _ => 15
  }

  ghost predicate ReplaceDecides(c: Config, m: Tariff, x: Rated, id: nat, px: int, qty: int, v: Env, r: RejectReason)
    requires Ok(x.s.e)
  {
    && (r != NoReject ==> ReplaceFails(c, m, x, id, px, qty, v, r))
    && forall why :: ReplaceRank(why) < ReplaceRank(r) ==> !ReplaceFails(c, m, x, id, px, qty, v, why)
  }

  /** What stops a replace, the queue's room included. */
  function ReplaceStop(c: Config, m: Tariff, x: Rated, id: nat, px: int, qty: int, v: Env): RejectReason
    requires Ok(x.s.e)
  {
    var e := x.s.e;
    var p := FindRow(e.rows, id);
    if p.None? || e.rows[p.value].pendingCancel || e.rows[p.value].pendingReplace then UnknownOrder
    else
      var r := e.rows[p.value];
      var ok := Allowed(m, x.counters, r.instrument, Amend, RatedRuns.Age(r, v.now), v.now);
      var why := CheckReplace(c, e, r, px, qty, v.(rateOk := ok));
      if why == NoReject && !Fits(x.s, ReplaceReq, GTC) then RingFull else why
  }

  lemma ReplaceStopFails(c: Config, m: Tariff, x: Rated, id: nat, px: int, qty: int, v: Env)
    requires Ok(x.s.e) && ReplaceStop(c, m, x, id, px, qty, v) != NoReject
    ensures ReplaceFails(c, m, x, id, px, qty, v, ReplaceStop(c, m, x, id, px, qty, v))
  {
    hide SumRows, CountAt, WellFormed, InBand, OutOfBand, Notional, Cost, FindRow, PositionCheck, Exposure, Available,
         Free, Reservation, Lock;
    var p := FindRow(x.s.e.rows, id);
    if p.Some? {
      var r := x.s.e.rows[p.value];
      BandIs(c.lim.priceBandBp, px, v.mid2);
    PositionCheckIs(c, x.s.e, r.instrument, r.side, qty - r.cum - r.leaves, px);
      FundsAre(x.s.e.acct, r.instrument, r.side, px, qty - r.cum);
      FundsAre(x.s.e.acct, r.instrument, r.side, r.px, r.leaves);
    }
  }

  lemma ReplaceNoneBefore(c: Config, m: Tariff, x: Rated, id: nat, px: int, qty: int, v: Env, why: RejectReason)
    requires Ok(x.s.e) && ReplaceRank(why) < ReplaceRank(ReplaceStop(c, m, x, id, px, qty, v))
    ensures !ReplaceFails(c, m, x, id, px, qty, v, why)
  {
    hide SumRows, CountAt, WellFormed, InBand, OutOfBand, Cost, FindRow, CheckReplace, ReplaceFailsRow, Allowed;
    var p := FindRow(x.s.e.rows, id);
    if p.Some? && ReplaceStop(c, m, x, id, px, qty, v) != UnknownOrder {
      var r := x.s.e.rows[p.value];
      RowNoneBefore(c, m, x, r, px, qty, v, why);
    }
  }

  /** The gate's verdict on an amend of the row. */
  function AmendVerdict(c: Config, m: Tariff, x: Rated, r: OrderRow, px: int, qty: int, v: Env): RejectReason
    requires Ok(x.s.e) && Trades(x.s.e.acct, r.instrument)
  {
    CheckReplace(c, x.s.e, r, px, qty,
                 v.(rateOk := Allowed(m, x.counters, r.instrument, Amend, RatedRuns.Age(r, v.now), v.now)))
  }

  lemma RowNoneBefore(c: Config, m: Tariff, x: Rated, r: OrderRow, px: int, qty: int, v: Env, why: RejectReason)
    requires Ok(x.s.e) && Trades(x.s.e.acct, r.instrument)
    requires ReplaceRank(why) < ReplaceRank(AmendVerdict(c, m, x, r, px, qty, v))
             || AmendVerdict(c, m, x, r, px, qty, v) == NoReject
    ensures AmendVerdict(c, m, x, r, px, qty, v) == NoReject || ReplaceRank(AmendVerdict(c, m, x, r, px, qty, v)) <= 13
    ensures why == Kill ==> !v.kill
    ensures why == Pause ==> !v.pause
    ensures why == PriceBand ==> !OutOfBand(c.lim.priceBandBp, px, v.mid2)
    ensures !ReplaceFailsRow(c, m, x, r, px, qty, v, why)
  {
    hide SumRows, CountAt, WellFormed, InBand, OutOfBand, Notional, Cost, PositionCheck, Exposure, Available, Free,
         Reservation, Lock;
    BandIs(c.lim.priceBandBp, px, v.mid2);
    PositionCheckIs(c, x.s.e, r.instrument, r.side, qty - r.cum - r.leaves, px);
    FundsAre(x.s.e.acct, r.instrument, r.side, px, qty - r.cum);
    FundsAre(x.s.e.acct, r.instrument, r.side, r.px, r.leaves);
  }

  lemma ReplaceStopDecides(c: Config, m: Tariff, x: Rated, id: nat, px: int, qty: int, v: Env)
    requires Ok(x.s.e)
    ensures ReplaceDecides(c, m, x, id, px, qty, v, ReplaceStop(c, m, x, id, px, qty, v))
  {
    hide ReplaceStop, ReplaceFails, ReplaceRank;
    if ReplaceStop(c, m, x, id, px, qty, v) != NoReject {
      ReplaceStopFails(c, m, x, id, px, qty, v);
    }
    forall why | ReplaceRank(why) < ReplaceRank(ReplaceStop(c, m, x, id, px, qty, v))
      ensures !ReplaceFails(c, m, x, id, px, qty, v, why)
    {
      ReplaceNoneBefore(c, m, x, id, px, qty, v, why);
    }
  }

  /** Everything after a replace that stops for a reason, or goes through. */
  ghost predicate ReplaceLeaves(m: Tariff, x: Rated, id: nat, px: int, qty: int, v: Env, r: RejectReason, y: Rated)
    requires Ok(x.s.e)
  {
    var e := x.s.e;
    if r == NoReject then
      var p := FindRow(e.rows, id);
      p.Some? && e.rows[p.value].instrument < |x.counters|
      && var row := e.rows[p.value];
         y == Rated(x.s.(e := e.(rows := e.rows[p.value := row.(pendingReplace := true, newPx := px, newQty := qty)],
                                 st := e.st.(ordersReplace := e.st.ordersReplace + 1)),
                         q := x.s.q + [Answer(id, Replaced)]),
                    Paying(m, x.counters, row.instrument, Cost(Amend, Aged(row, v.now)), v.now))
    else y == x.(s := x.s.(e := e.(st := Refusals(e.st, r))))
  }

  lemma ReplaceGoesThrough(c: Config, m: Tariff, x: Rated, id: nat, px: int, qty: int, v: Env, t: int)
    requires Ok(x.s.e) && ReplaceStop(c, m, x, id, px, qty, v) == NoReject
    ensures ReplaceLeaves(m, x, id, px, qty, v, NoReject, RStep(c, m, x, Timed(NReplace(id, px, qty, v), t)))
  {
    hide CountAt, FindRow, WellFormed, CheckReplace;
    ReplaceCounts(c, m, x, id, px, qty, v);
  }

  lemma ReplaceCounts(c: Config, m: Tariff, x: Rated, id: nat, px: int, qty: int, v: Env)
    requires Ok(x.s.e) && ReplaceStop(c, m, x, id, px, qty, v) == NoReject
    ensures x.s.e.rows[FindRow(x.s.e.rows, id).value].instrument < |x.counters|
  {
    hide SumRows, CountAt, WellFormed, InBand, OutOfBand, Notional, Cost, FindRow;
  }

  lemma ReplaceStops(c: Config, m: Tariff, x: Rated, id: nat, px: int, qty: int, v: Env, t: int)
    requires Ok(x.s.e) && ReplaceStop(c, m, x, id, px, qty, v) != NoReject
    ensures ReplaceLeaves(m, x, id, px, qty, v, ReplaceStop(c, m, x, id, px, qty, v),
                          RStep(c, m, x, Timed(NReplace(id, px, qty, v), t)))
  {
    hide CountAt, FindRow, WellFormed, CheckReplace;
    var p := FindRow(x.s.e.rows, id);
    if p.Some? {
      var r := x.s.e.rows[p.value];
      AmendIsRisk(c, x.s.e, r, px, qty, Answered(m, x, NReplace(id, px, qty, v)).env);
    }
  }

  lemma AmendIsRisk(c: Config, e: Engine, r: OrderRow, px: int, qty: int, v: Env)
    requires WellFormed(e.acct) && Trades(e.acct, r.instrument)
    ensures CheckReplace(c, e, r, px, qty, v) !in {RingFull, UnknownOrder}
  {
    hide SumRows, WellFormed, Notional;
  }

  /** A replace goes through if and only if no reason applies; else it reports the first that does, and that is all. */
  lemma ReplaceDecided(c: Config, m: Tariff, x: Rated, id: nat, px: int, qty: int, v: Env, t: int)
    returns (r: RejectReason)
    requires Ok(x.s.e)
    ensures r == ReplaceStop(c, m, x, id, px, qty, v) && ReplaceDecides(c, m, x, id, px, qty, v, r)
    ensures ReplaceLeaves(m, x, id, px, qty, v, r, RStep(c, m, x, Timed(NReplace(id, px, qty, v), t)))
  {
    hide ReplaceLeaves, ReplaceDecides, ReplaceStop, RStep;
    r := ReplaceStop(c, m, x, id, px, qty, v);
    ReplaceStopDecides(c, m, x, id, px, qty, v);
    if r == NoReject {
      ReplaceGoesThrough(c, m, x, id, px, qty, v, t);
    } else {
      ReplaceStops(c, m, x, id, px, qty, v, t);
    }
  }

  // Cancels.

  /**
   Everything after a cancel: nothing for an unknown order or one whose cancel is pending; a full queue is reported;
   else the cancel is in flight and paid for, whatever the gate would say.
   */
  ghost predicate CancelLeaves(m: Tariff, x: Rated, id: nat, now: int, y: Rated)
    requires Ok(x.s.e)
  {
    var e := x.s.e;
    var p := FindRow(e.rows, id);
    if p.None? || e.rows[p.value].pendingCancel then y == x
    else if |x.s.q| == x.s.room then y == x.(s := x.s.(e := e.(st := Refusals(e.st, RingFull))))
    else
      var row := e.rows[p.value];
      y == Rated(x.s.(e := e.(rows := e.rows[p.value := row.(pendingCancel := true)],
                              st := e.st.(ordersCancel := e.st.ordersCancel + 1)),
                      q := x.s.q + [Answer(id, Canceled)]),
                 if row.instrument < |x.counters|
                 then Paying(m, x.counters, row.instrument, Cost(RateOp.Cancel, Aged(row, now)), now) else x.counters)
  }

  lemma CancelDecided(c: Config, m: Tariff, x: Rated, id: nat, now: int)
    requires Ok(x.s.e) && |x.s.q| <= x.s.room
    ensures CancelLeaves(m, x, id, now, RStep(c, m, x, Timed(NCancel(id), now)))
  {
    hide CountAt, FindRow, WellFormed, SameShape, Cost;
  }

  // The imperative engine.

  lemma SubmitIdIs(x: ExecContext, q: Request, v: Env)
    requires x.Valid() && x.View().counter + 1 < COUNTER_IDS
    ensures var id := x.SubmitId(q, x.Seen(v, q.instrument, Add, 0));
            id == if SubmitStop(x.cfg, x.Terms(), x.Whole(), q, v) == NoReject
                  then x.View().gen * COUNTER_IDS + x.View().counter + 1 else ExecOrderTable.INVALID_ORDER
  {
    hide ExecContext.Parts, ExecContext.Sized, WellFormed, CheckNew, Allows;
    VerdictIsRisk(x.cfg, x.View(), q, x.Seen(v, q.instrument, Add, 0));
  }

  lemma ReplaceAnswerIs(x: ExecContext, id: nat, px: int, qty: int, v: Env)
    requires x.Valid()
    ensures ReplaceStop(x.cfg, x.Terms(), x.Whole(), id, px, qty, v) == NoReject
            <==> x.ReplaceVerdict(id, px, qty, x.SeenAt(id, v)) == NoReject && Fits(x.System(), ReplaceReq, GTC)
  {
    hide ExecContext.Parts, ExecContext.Sized, CheckReplace, Allows, FindRow, WellFormed;
  }

  /** A submit on the context itself: an id when nothing stops it, else the invalid one and the first reason. */
  method SubmitToVenue(x: ExecContext, q: Request, v: Env) returns (id: nat, ghost r: RejectReason)
    requires x.Valid() && IdsIssued(x.View()) && x.View().counter + 1 < COUNTER_IDS
    modifies x.Repr()
    ensures x.Valid() && SubmitDecides(x.cfg, x.Terms(), old(x.Whole()), q, v, r)
    ensures SubmitLeaves(x.Terms(), old(x.Whole()), q, v, r, x.Whole())
    ensures id == if r == NoReject then old(x.View().gen) * COUNTER_IDS + old(x.View().counter) + 1
                  else ExecOrderTable.INVALID_ORDER
  {
    hide SubmitLeaves, SubmitDecides, SubmitStop, RStep, ExecContext.Parts, Ok, ExecContext.After,
         ExecContext.GaugesAfter, ExecContext.SubmitId;
    r := SubmitDecided(x.cfg, x.Terms(), x.Whole(), q, v, v.now);
    x.StepIs(Timed(NSubmit(q, v), v.now));
    SubmitIdIs(x, q, v);
    id := x.SubmitOrder(q, v);
  }

  method ReplaceAtVenue(x: ExecContext, id: nat, px: int, qty: int, v: Env) returns (ok: bool, ghost r: RejectReason)
    requires x.Valid()
    modifies x.Repr()
    ensures x.Valid() && ReplaceDecides(x.cfg, x.Terms(), old(x.Whole()), id, px, qty, v, r)
    ensures ReplaceLeaves(x.Terms(), old(x.Whole()), id, px, qty, v, r, x.Whole())
    ensures ok <==> r == NoReject
  {
    hide ReplaceLeaves, ReplaceDecides, ReplaceStop, RStep, ExecContext.Parts, Ok, ExecContext.After,
         ExecContext.GaugesAfter, ExecContext.ReplaceVerdict;
    r := ReplaceDecided(x.cfg, x.Terms(), x.Whole(), id, px, qty, v, v.now);
    x.StepIs(Timed(NReplace(id, px, qty, v), v.now));
    ReplaceAnswerIs(x, id, px, qty, v);
    ok := x.ReplaceOrder(id, px, qty, v);
  }
}
