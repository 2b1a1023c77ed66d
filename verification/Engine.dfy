/**
 Exec's engine as functions on one value: the risk gate, submit, replace and cancel, and the
 application of execution reports. The rate gate enters as a boolean, and whether the router
 queues a request as the `routed` argument.
 */
module Engine {
  import opened Common
  import opened OrderTypes
  import opened Positions
  import opened AccountModule

  datatype ExecType =
    | Acked | Rejected | PartialFill | FullFill | Canceled | CancelRejected | Replaced | Expired | Restated

  datatype Report = Report(id: nat, kind: ExecType, lastPx: int, lastQty: int, fee: int, feeInBase: bool)

  datatype RejectReason =
    | NoReject | Kill | Pause | NotTraded | NotAllowed | InstrumentStatus | BadOrder | MinQty | MinNotional
    | MaxOrderQty | MaxOrderNotional | MaxPosition | MaxPositionNotional | MaxOpenOrders | PriceBand
    | InsufficientBase | InsufficientQuote | RateLimit | OpenOrderLimit | UnknownOrder | TableFull | RingFull

  datatype Status = Online | PostOnlyStatus | LimitOnly | CancelOnly | Halted

  datatype InstrumentRow = InstrumentRow(minQtyLots: int, minNotional: int, status: Status)

  // A zero disables a limit.
  datatype RiskLimits = RiskLimits(maxOrderQty: int, maxOrderNotional: int, maxPosition: int,
                                   maxPositionNotional: int, maxOpenOrders: nat, spotOnly: bool, priceBandBp: real)

  datatype Config = Config(lim: RiskLimits, allowed: set<nat>, instruments: nat -> InstrumentRow,
                           rateEnabled: bool, rateMaxOpen: nat)

  // What the market and the clock say at a request: control bits, mid2, rate gate.
  datatype Env = Env(kill: bool, pause: bool, mid2: int, rateOk: bool, now: int)

  datatype Request = Request(instrument: nat, side: Side, px: int, qty: int, tif: Tif, ordType: OrdType)

  datatype Stats = Stats(ordersNew: nat, ordersReplace: nat, ordersCancel: nat, acks: nat, fills: nat, replaced: nat,
                         canceled: nat, expired: nat, venueRejects: nat, unsolicited: nat,
                         riskRejects: nat, ringFullRejects: nat, lastReject: RejectReason)

  const NO_STATS := Stats(0, 0, 0, 0, 0, 0, 0, 0, 0, 0, 0, 0, NoReject)

  datatype Engine = Engine(rows: seq<OrderRow>, maxRows: nat, gen: nat, counter: nat, acct: Acct, st: Stats)


  /** The table and the account are consistent, and every live row is on a registered instrument. */
  ghost predicate Ok(e: Engine) {
    && WellFormed(e.acct) && UniqueIds(e.rows) && |e.rows| <= e.maxRows
    && forall i :: 0 <= i < |e.rows| ==> e.rows[i].id != 0 && Trades(e.acct, e.rows[i].instrument)
  }

  function CountReject(st: Stats, r: RejectReason): Stats {
    if r == RingFull then st.(lastReject := r, ringFullRejects := st.ringFullRejects + 1)
    else st.(lastReject := r, riskRejects := st.riskRejects + 1)
  }

  // The risk gate.

  function StatusCheck(q: Request, s: Status): RejectReason {
    match s
    case Online => NoReject
    case PostOnlyStatus => if q.tif == PostOnly then NoReject else InstrumentStatus
    case LimitOnly => if q.ordType == Limit then NoReject else InstrumentStatus
    case _ => InstrumentStatus
  }

  /** The position that this order and all open orders of its side would lead to. */
  function Worst(e: Engine, inst: nat, side: Side, add: int): int
    requires Trades(e.acct, inst)
  {
    var pos := InstOf(e.acct, inst).pos.qty;
    if side == Buy then pos + SumRows(e.rows, LotsOf(inst, Buy)) + add
    else pos - SumRows(e.rows, LotsOf(inst, Sell)) - add
  }

  function PositionCheck(c: Config, e: Engine, inst: nat, side: Side, add: int, px: int): RejectReason
    requires Trades(e.acct, inst)
  {
    if c.lim.maxPosition == 0 && c.lim.maxPositionNotional == 0 then NoReject
    else
      var worst := Abs(Worst(e, inst, side, add));
      if c.lim.maxPosition != 0 && worst > c.lim.maxPosition then MaxPosition
      else if c.lim.maxPositionNotional != 0
              && Notional(InstOf(e.acct, inst), px, worst) > c.lim.maxPositionNotional then MaxPositionNotional
      else NoReject
  }

  function Available(a: Acct, inst: nat, side: Side): int
    requires WellFormed(a) && Trades(a, inst)
  {
    var b := a.bal[SideAsset(InstOf(a, inst), side)];
    b.total - b.reserved
  }

  function Insufficient(side: Side): RejectReason {
    if side == Buy then InsufficientQuote else InsufficientBase
  }

  /** The price an order reserves at: its own, or half of bid plus ask for a market order. */
  function RefPx(px: int, mid2: int): int {
    if px > 0 then px else TruncDiv(mid2, 2)
  }

  /** Within so many basis points of the mid; neither a market order nor an empty book has a band. */
  predicate InBand(bp: real, px: int, mid2: int) {
    if bp <= 0.0 || px <= 0 || mid2 <= 0 then true
    else
      var mid := mid2 as real / 2.0;
      -bp <= (px as real - mid) / mid * 10000.0 <= bp
  }

  function CheckNew(c: Config, e: Engine, q: Request, v: Env): RejectReason
    requires WellFormed(e.acct)
  {
    if v.kill then Kill
    else if v.pause then Pause
    else if !Trades(e.acct, q.instrument) then NotTraded
    else if q.instrument !in c.allowed then NotAllowed
    else
      var row := c.instruments(q.instrument);
      if StatusCheck(q, row.status) != NoReject then StatusCheck(q, row.status)
      else if q.qty <= 0 || (q.ordType == Limit && q.px <= 0) then BadOrder
      else
        var refPx := RefPx(q.px, v.mid2);
        var i := InstOf(e.acct, q.instrument);
        var notional := Notional(i, refPx, q.qty);
        var position := PositionCheck(c, e, q.instrument, q.side, q.qty, refPx);
        if row.minQtyLots > 0 && q.qty < row.minQtyLots then MinQty
        else if row.minNotional > 0 && notional < row.minNotional then MinNotional
        else if c.lim.maxOrderQty != 0 && q.qty > c.lim.maxOrderQty then MaxOrderQty
        else if c.lim.maxOrderNotional != 0 && notional > c.lim.maxOrderNotional then MaxOrderNotional
        else if position != NoReject then position
        else if c.lim.maxOpenOrders != 0 && |e.rows| >= c.lim.maxOpenOrders then MaxOpenOrders
        else if c.rateEnabled && SumRows(e.rows, OneOf(q.instrument)) >= c.rateMaxOpen then OpenOrderLimit
        else if !InBand(c.lim.priceBandBp, q.px, v.mid2) then PriceBand
        else if c.lim.spotOnly && Reservation(i, q.side, refPx, q.qty) > Available(e.acct, q.instrument, q.side)
        then Insufficient(q.side)
        else if !v.rateOk then RateLimit
        else NoReject
  }

  /** An amend of a live row to px and a new total qty; its leaves follow. */
  function CheckReplace(c: Config, e: Engine, r: OrderRow, px: int, qty: int, v: Env): RejectReason
    requires WellFormed(e.acct) && Trades(e.acct, r.instrument)
  {
    var row := c.instruments(r.instrument);
    if v.kill then Kill
    else if v.pause then Pause
    else if row.status == Halted || row.status == CancelOnly then InstrumentStatus
    else if qty <= r.cum || px <= 0 then BadOrder
    else if row.minQtyLots > 0 && qty < row.minQtyLots then MinQty
    else
      var i := InstOf(e.acct, r.instrument);
      var notional := Notional(i, px, qty);
      var newLeaves := qty - r.cum;
      var position := if newLeaves > r.leaves then PositionCheck(c, e, r.instrument, r.side, newLeaves - r.leaves, px)
                      else NoReject;
      if c.lim.maxOrderQty != 0 && qty > c.lim.maxOrderQty then MaxOrderQty
      else if c.lim.maxOrderNotional != 0 && notional > c.lim.maxOrderNotional then MaxOrderNotional
      else if position != NoReject then position
      else if !InBand(c.lim.priceBandBp, px, v.mid2) then PriceBand
      else if c.lim.spotOnly && Reservation(i, r.side, px, newLeaves) - Reservation(i, r.side, r.px, r.leaves)
                                > Available(e.acct, r.instrument, r.side)
      then Insufficient(r.side)
      else if !v.rateOk then RateLimit
      else NoReject
  }

  // Requests.

  function NextId(gen: nat, counter: nat): nat {
    gen * COUNTER_IDS + (counter + 1) % COUNTER_IDS
  }

  function NewRow(q: Request, id: nat, v: Env): OrderRow {
    OrderRow(id, RefPx(q.px, v.mid2), q.qty, q.qty, 0, 0, 0, q.instrument, q.side, q.tif, q.ordType, PendingNew,
             false, false, v.now, 0)
  }

  /** The table's insert: refused when full, for the invalid id and for one already present. */
  function Inserted(rows: seq<OrderRow>, maxRows: nat, r: OrderRow): seq<OrderRow> {
    if |rows| < maxRows && r.id != 0 && FindRow(rows, r.id).None? then rows + [r] else rows
  }

  function Erased(rows: seq<OrderRow>, id: nat): seq<OrderRow> {
    var p := FindRow(rows, id);
    if p.Some? then SwapRemove(rows, p.value) else rows
  }

  /** The reason a submit stops at, the full table included. */
  function SubmitVerdict(c: Config, e: Engine, q: Request, v: Env): RejectReason
    requires WellFormed(e.acct)
  {
    var r := CheckNew(c, e, q, v);
    if r == NoReject && |e.rows| == e.maxRows then TableFull else r
  }

  function Submit(c: Config, e: Engine, q: Request, v: Env, routed: bool): Engine
    requires WellFormed(e.acct)
  {
    var r := SubmitVerdict(c, e, q, v);
    if r != NoReject then e.(st := CountReject(e.st, r))
    else
      var row := NewRow(q, NextId(e.gen, e.counter), v);
      var rows := Inserted(e.rows, e.maxRows, row);
      if !routed then
        e.(counter := e.counter + 1, rows := Erased(rows, row.id), st := CountReject(e.st, RingFull))
      else
        e.(counter := e.counter + 1, rows := rows, acct := Reserve(e.acct, q.instrument, q.side, row.px, q.qty),
           st := e.st.(ordersNew := e.st.ordersNew + 1))
  }

  function Replace(c: Config, e: Engine, id: nat, px: int, qty: int, v: Env, routed: bool): Engine
    requires Ok(e)
  {
    var p := FindRow(e.rows, id);
    if p.None? || e.rows[p.value].pendingCancel || e.rows[p.value].pendingReplace then
      e.(st := CountReject(e.st, UnknownOrder))
    else
      var row := e.rows[p.value];
      var r := CheckReplace(c, e, row, px, qty, v);
      if r != NoReject then e.(st := CountReject(e.st, r))
      else if !routed then e.(st := CountReject(e.st, RingFull))
      else e.(rows := e.rows[p.value := row.(pendingReplace := true, newPx := px, newQty := qty)],
              st := e.st.(ordersReplace := e.st.ordersReplace + 1))
  }

  /** A replace that the gate lets through. */
  predicate ReplaceAsked(c: Config, e: Engine, id: nat, px: int, qty: int, v: Env)
    requires Ok(e)
  {
    var p := FindRow(e.rows, id);
    && p.Some? && !e.rows[p.value].pendingCancel && !e.rows[p.value].pendingReplace
    && CheckReplace(c, e, e.rows[p.value], px, qty, v) == NoReject
  }

  function Cancel(e: Engine, id: nat, routed: bool): Engine {
    var p := FindRow(e.rows, id);
    if p.None? || e.rows[p.value].pendingCancel then e
    else if !routed then e.(st := CountReject(e.st, RingFull))
    else e.(rows := e.rows[p.value := e.rows[p.value].(pendingCancel := true)],
            st := e.st.(ordersCancel := e.st.ordersCancel + 1))
  }

  // Reports.

  /** An order ends: its lock is released and its row erased. */
  function Finish(e: Engine, i: nat): Engine
    requires WellFormed(e.acct) && i < |e.rows| && Trades(e.acct, e.rows[i].instrument)
  {
    var r := e.rows[i];
    e.(acct := Release(e.acct, r.instrument, r.side, r.px, r.leaves), rows := SwapRemove(e.rows, i))
  }

  function FilledRow(r: OrderRow, rep: Report): OrderRow {
    r.(cum := r.cum + rep.lastQty, leaves := if r.leaves > rep.lastQty then r.leaves - rep.lastQty else 0,
       status := if rep.kind == FullFill then FullyFilled else PartiallyFilled)
  }

  function ReplacedRow(r: OrderRow): OrderRow {
    r.(px := r.newPx, qty := r.newQty, leaves := r.newQty - r.cum, pendingReplace := false)
  }

  /** An execution: the account first, then the row, which finishes with its last lot. */
  function ApplyFill(e: Engine, i: nat, rep: Report): Engine
    requires WellFormed(e.acct) && i < |e.rows| && Trades(e.acct, e.rows[i].instrument)
  {
    var r := e.rows[i];
    var a := OnFill(e.acct, r.instrument, r.side, rep.lastPx, rep.lastQty, r.px, rep.fee, rep.feeInBase);
    var f := e.(acct := a, rows := e.rows[i := FilledRow(r, rep)], st := e.st.(fills := e.st.fills + 1));
    if FilledRow(r, rep).leaves == 0 then Finish(f, i) else f
  }

  function ApplyReplaced(e: Engine, i: nat): Engine
    requires WellFormed(e.acct) && i < |e.rows| && Trades(e.acct, e.rows[i].instrument)
  {
    var r := e.rows[i];
    var n := ReplacedRow(r);
    var a := Release(e.acct, r.instrument, r.side, r.px, r.leaves);
    e.(acct := Reserve(a, r.instrument, r.side, n.px, n.leaves), rows := e.rows[i := n],
       st := e.st.(replaced := e.st.replaced + 1))
  }

  function ApplyReport(e: Engine, rep: Report, now: int): Engine
    requires Ok(e)
  {
    var p := FindRow(e.rows, rep.id);
    if p.None? then e.(st := e.st.(unsolicited := e.st.unsolicited + 1))
    else
      var i, r := p.value, e.rows[p.value];
      match rep.kind
      case Acked => e.(rows := e.rows[i := r.(status := New, tAck := now)], st := e.st.(acks := e.st.acks + 1))
      case PartialFill => ApplyFill(e, i, rep)
      case FullFill => ApplyFill(e, i, rep)
      case Replaced => ApplyReplaced(e, i)
      case Canceled => Finish(e, i).(st := e.st.(canceled := e.st.canceled + 1))
      case Expired => Finish(e, i).(st := e.st.(expired := e.st.expired + 1))
      case Rejected => Finish(e, i).(st := e.st.(venueRejects := e.st.venueRejects + 1))
      case CancelRejected => e.(rows := e.rows[i := r.(pendingCancel := false, pendingReplace := false)])
      case Restated => e
  }

  // Runs.

  datatype Action =
    | SubmitA(q: Request, env: Env, routed: bool)
    | ReplaceA(id: nat, px: int, qty: int, env: Env, routed: bool)
    | CancelA(id: nat, routed: bool)
    | ReportA(rep: Report, now: int)
    | MarkA(inst: nat, bid: int, ask: int)

  function Step(c: Config, e: Engine, a: Action): Engine
    requires Ok(e)
  {
    match a
    case SubmitA(q, v, routed) => Submit(c, e, q, v, routed)
    case ReplaceA(id, px, qty, v, routed) => Replace(c, e, id, px, qty, v, routed)
    case CancelA(id, routed) => Cancel(e, id, routed)
    case ReportA(rep, now) => ApplyReport(e, rep, now)
    case MarkA(inst, bid, ask) => e.(acct := Marked(e.acct, inst, bid, ask))
  }

  /** Every step keeps the engine consistent, whatever the venue reports. */
  lemma StepKeepsOk(c: Config, e: Engine, a: Action)
    requires Ok(e)
    ensures Ok(Step(c, e, a)) && SameShape(e.acct, Step(c, e, a).acct)
  {
    hide CheckNew, CheckReplace, Reserve, Release, OnFill, Marked, SameShape, WellFormed, FindRow;
    SameShapeRefl(e.acct);
    match a {
      case SubmitA(q, v, routed) => SubmitKeepsOk(c, e, q, v, routed);
      case ReplaceA(id, px, qty, v, routed) =>
      case CancelA(id, routed) =>
      case ReportA(rep, now) => ReportKeepsOk(e, rep, now);
      case MarkA(inst, bid, ask) => SameTrades(e.acct, Marked(e.acct, inst, bid, ask));
    }
  }

  lemma SameShapeRefl(a: Acct)
    ensures SameShape(a, a)
  {
  }

  lemma SameTrades(a: Acct, b: Acct)
    requires SameShape(a, b)
    ensures forall inst :: Trades(a, inst) ==> Trades(b, inst)
  {
  }

  lemma SubmitKeepsOk(c: Config, e: Engine, q: Request, v: Env, routed: bool)
    requires Ok(e)
    ensures Ok(Submit(c, e, q, v, routed)) && SameShape(e.acct, Submit(c, e, q, v, routed).acct)
  {
    hide PositionCheck, StatusCheck, Reserve, SameShape, WellFormed, FindRow, NextId;
    SameShapeRefl(e.acct);
    if SubmitVerdict(c, e, q, v) == NoReject {
      var row := NewRow(q, NextId(e.gen, e.counter), v);
      UniqueAppend(e.rows, row);
      var rows := Inserted(e.rows, e.maxRows, row);
      assert Ok(e.(rows := rows));
      if FindRow(rows, row.id).Some? {
        FindSwapRemove(rows, FindRow(rows, row.id).value);
      }
      var b := Reserve(e.acct, q.instrument, q.side, row.px, q.qty);
      SameTrades(e.acct, b);
    }
  }

  lemma FinishKeepsOk(e: Engine, i: nat)
    requires Ok(e) && i < |e.rows|
    ensures Ok(Finish(e, i)) && SameShape(e.acct, Finish(e, i).acct)
  {
    hide Release, SameShape, WellFormed;
    var r := e.rows[i];
    FindSwapRemove(e.rows, i);
    SameTrades(e.acct, Release(e.acct, r.instrument, r.side, r.px, r.leaves));
  }

  lemma SameShapeTrans(a: Acct, b: Acct, d: Acct)
    requires SameShape(a, b) && SameShape(b, d)
    ensures SameShape(a, d)
  {
  }

  lemma ReportKeepsOk(e: Engine, rep: Report, now: int)
    requires Ok(e)
    ensures Ok(ApplyReport(e, rep, now)) && SameShape(e.acct, ApplyReport(e, rep, now).acct)
  {
    hide Release, Reserve, OnFill, SameShape, WellFormed, FindRow, FilledRow;
    SameShapeRefl(e.acct);
    var p := FindRow(e.rows, rep.id);
    if p.Some? {
      var i, r := p.value, e.rows[p.value];
      match rep.kind {
        case PartialFill => FillKeepsOk(e, i, rep);
        case FullFill => FillKeepsOk(e, i, rep);
        case Replaced =>
          var a := Release(e.acct, r.instrument, r.side, r.px, r.leaves);
          SameTrades(e.acct, a);
          var b := Reserve(a, r.instrument, r.side, ReplacedRow(r).px, ReplacedRow(r).leaves);
          SameTrades(a, b);
          SameShapeTrans(e.acct, a, b);
        case Canceled => FinishKeepsOk(e, i);
        case Expired => FinishKeepsOk(e, i);
        case Rejected => FinishKeepsOk(e, i);
        case _ =>
      }
    }
  }

  lemma FillKeepsOk(e: Engine, i: nat, rep: Report)
    requires Ok(e) && i < |e.rows|
    ensures Ok(ApplyFill(e, i, rep)) && SameShape(e.acct, ApplyFill(e, i, rep).acct)
  {
    hide Release, OnFill, SameShape, WellFormed;
    var r := e.rows[i];
    var a := OnFill(e.acct, r.instrument, r.side, rep.lastPx, rep.lastQty, r.px, rep.fee, rep.feeInBase);
    SameTrades(e.acct, a);
    var f := e.(acct := a, rows := e.rows[i := FilledRow(r, rep)], st := e.st.(fills := e.st.fills + 1));
    assert Ok(f);
    FinishKeepsOk(f, i);
    SameShapeTrans(e.acct, a, Finish(f, i).acct);
  }

  function Run(c: Config, e: Engine, actions: seq<Action>): (r: Engine)
    requires Ok(e)
    ensures Ok(r)
  {
    if actions == [] then e
    else
      var before := Run(c, e, actions[..|actions| - 1]);
      StepKeepsOk(c, before, actions[|actions| - 1]);
      Step(c, before, actions[|actions| - 1])
  }

  /** Live ids were issued by this generation, which has issued fewer than 2^40. */
  ghost predicate IdsIssued(e: Engine) {
    && e.counter < COUNTER_IDS
    && forall i :: 0 <= i < |e.rows| ==> e.gen * COUNTER_IDS < e.rows[i].id <= e.gen * COUNTER_IDS + e.counter
  }

  /** A fresh id: submit's insert never fails. */
  lemma InsertSucceeds(c: Config, e: Engine, q: Request, v: Env)
    requires Ok(e) && IdsIssued(e) && e.counter + 1 < COUNTER_IDS
    requires SubmitVerdict(c, e, q, v) == NoReject
    ensures var row := NewRow(q, NextId(e.gen, e.counter), v);
            Inserted(e.rows, e.maxRows, row) == e.rows + [row] && Erased(e.rows + [row], row.id) == e.rows
  {
    hide CheckNew;
    var row := NewRow(q, NextId(e.gen, e.counter), v);
    assert FindRow(e.rows, row.id).None?;
    FindAppend(e.rows, row);
    assert SwapRemove(e.rows + [row], |e.rows|) == e.rows;
  }

  lemma StepKeepsIds(c: Config, e: Engine, a: Action)
    requires Ok(e) && IdsIssued(e) && (a.SubmitA? ==> e.counter + 1 < COUNTER_IDS)
    ensures IdsIssued(Step(c, e, a))
  {
    hide CheckReplace, SubmitVerdict, ApplyReport, Reserve, Marked, WellFormed, FindRow;
    match a {
      case SubmitA(q, v, routed) =>
        if SubmitVerdict(c, e, q, v) == NoReject {
          InsertSucceeds(c, e, q, v);
        }
      case ReportA(rep, now) => ReportKeepsIds(e, rep, now);
      case _ =>
    }
  }

  lemma ReportKeepsIds(e: Engine, rep: Report, now: int)
    requires Ok(e) && IdsIssued(e)
    ensures IdsIssued(ApplyReport(e, rep, now))
  {
    hide Release, Reserve, OnFill, WellFormed, FindRow;
  }
}
