/**
 Exec's context and a strategy's requests as they update state in place: the order table with
 its index, the account, the rate counters, the null router's queue and the statistics.
 Each operation is one step of the engine against its venue.
 */
module ExecContextModule {
  import opened Common
  import opened OrderTypes
  import opened AccountModule
  import opened Engine
  import opened NullVenue
  import opened RatedRuns
  import LegalRuns
  import ExecOrderTable
  import RateModelModule

  class ExecContext {
    const cfg: Config
    const orders: ExecOrderTable.OrderTable
    const account: Account
    const rate: RateModelModule.RateModel
    const router: NullRouter
    var st: Stats

    ghost function Repr(): set<object> {
      orders.Repr() + {this, account, rate, rate.counters, router, router.q}
    }

    ghost function View(): Engine
      reads this, orders, account
    {
      Engine(orders.contents, orders.rows.Length, orders.gen, orders.counter, account.Value(), st)
    }

    ghost function System(): Sys
      reads this, orders, account, router
    {
      Sys(View(), router.contents, router.q.Length)
    }

    /** Every instrument of the account has its sums in the table and its rate counter. */
    ghost predicate Sized()
      reads this, account
    {
      forall inst: nat :: Trades(account.Value(), inst) ==> inst < orders.live.Length && inst < rate.counters.Length
    }

    ghost predicate Parts()
      reads Repr()
    {
      && orders.Valid() && router.Valid() && rate.Valid()
      && cfg.rateEnabled == rate.enabled && cfg.rateMaxOpen == rate.params.maxOpen
    }

    /** The state that operations keep: besides the parts, every add and amend charged was in budget. */
    ghost predicate Valid()
      reads Repr()
    {
      Parts() && Sized() && Ok(View()) && rate.AllGated()
    }

    /** The engine and its queue after one more step. */
    ghost function After(a: NullAction): Sys
      requires Valid()
      reads Repr()
    {
      NStep(cfg, System(), a)
    }

    /** The rate counters of all instruments, and the terms that they are kept on. */
    ghost function Gauges(): seq<RateModelModule.Counter>
      reads rate.counters
    {
      rate.counters[..]
    }

    ghost function Terms(): Tariff {
      Tariff(rate.enabled, rate.params)
    }

    ghost function Whole(): Rated
      reads this, orders, account, router, rate.counters
    {
      Rated(System(), Gauges())
    }

    /** The rate counters after one more step. */
    ghost function GaugesAfter(a: NullAction, now: int): seq<RateModelModule.Counter>
      requires Valid()
      reads Repr()
    {
      CountersAfter(cfg, Terms(), Whole(), a, now)
    }

    constructor (cfg: Config, orders: ExecOrderTable.OrderTable, account: Account, rate: RateModelModule.RateModel,
                 router: NullRouter)
      requires orders.Valid() && router.Valid() && rate.Valid() && rate.AllGated() && orders.contents == []
      requires cfg.rateEnabled == rate.enabled && cfg.rateMaxOpen == rate.params.maxOpen && WellFormed(account.Value())
      requires forall inst: nat :: Trades(account.Value(), inst) ==>
                 inst < orders.live.Length && inst < rate.counters.Length
      ensures Valid() && this.cfg == cfg && this.orders == orders && this.account == account && this.rate == rate
      ensures this.router == router && st == NO_STATS
    {
      this.cfg, this.orders, this.account, this.rate, this.router := cfg, orders, account, rate, router;
      st := NO_STATS;
    }

    method Reject(r: RejectReason)
      modifies this`st
      ensures st == CountReject(old(st), r)
    {
      st := st.(lastReject := r);
      if r == RingFull {
        st := st.(ringFullRejects := st.ringFullRejects + 1);
      } else {
        st := st.(riskRejects := st.riskRejects + 1);
      }
    }

    /** New counters. */
    method Publish(s: Stats)
      requires Valid()
      modifies this`st
      ensures Valid() && View() == old(View()).(st := s)
    {
      hide ExecOrderTable.OrderTable.Valid, NullRouter.Valid, RateModelModule.RateModel.Valid, WellFormed, Trades;
      Apart();
      st := s;
    }

    lemma Counters()
      ensures View().st == st
    {
    }

    method Refuse(r: RejectReason)
      requires Valid()
      modifies this`st
      ensures Valid() && View() == old(View()).(st := CountReject(old(View()).st, r))
    {
      hide ExecOrderTable.OrderTable.Valid, NullRouter.Valid, RateModelModule.RateModel.Valid, WellFormed, Trades;
      Apart();
      Reject(r);
    }

    // The risk gate reads the table's running sums.

    function PositionVerdict(inst: nat, side: Side, add: int, px: int): RejectReason
      requires Valid() && Trades(account.Value(), inst)
      reads Repr()
    {
      OpenSums(inst);
      if cfg.lim.maxPosition == 0 && cfg.lim.maxPositionNotional == 0 then NoReject
      else
        var i := account.insts[account.slotOf[inst]];
        var worst := if side == Buy then i.pos.qty + orders.openBuy[inst] + add
                     else i.pos.qty - orders.openSell[inst] - add;
        var absWorst := if worst < 0 then 0 - worst else worst;
        if cfg.lim.maxPosition != 0 && absWorst > cfg.lim.maxPosition then MaxPosition
        else if cfg.lim.maxPositionNotional != 0 && Notional(i, px, absWorst) > cfg.lim.maxPositionNotional
        then MaxPositionNotional
        else NoReject
    }

    /** The gate's running sums give the verdict of the sums over the live rows. */
    lemma PositionVerdictExact(inst: nat, side: Side, add: int, px: int)
      requires Valid() && Trades(account.Value(), inst)
      ensures PositionVerdict(inst, side, add, px) == PositionCheck(cfg, View(), inst, side, add, px)
    {
      hide Notional, SumRows, Parts, Ok;
      OpenSums(inst);
    }

    lemma OpenSums(inst: nat)
      requires Valid() && Trades(account.Value(), inst)
      ensures inst < orders.live.Length == orders.openBuy.Length == orders.openSell.Length
             && inst < rate.counters.Length
      ensures orders.live[inst] == SumRows(View().rows, OneOf(inst))
      ensures orders.openBuy[inst] == SumRows(View().rows, LotsOf(inst, Buy))
      ensures orders.openSell[inst] == SumRows(View().rows, LotsOf(inst, Sell))
      ensures orders.n == |View().rows| && cfg.rateEnabled == rate.enabled && cfg.rateMaxOpen == rate.params.maxOpen
    {
    }

    function RateOk(inst: nat, op: RateModelModule.RateOp, age: int, now: int): bool
      reads rate.counters
    {
      inst < rate.counters.Length && rate.WouldAllow(inst, op, age, now)
    }

    method GateNew(q: Request, v: Env) returns (r: RejectReason)
      requires Valid()
      ensures Valid()
      ensures r == CheckNew(cfg, View(), q, v.(rateOk := RateOk(q.instrument, RateModelModule.Add, 0, v.now)))
    {
      hide PositionCheck, SumRows, Notional, Reservation, StatusCheck, Insufficient, RefPx, Parts, SideAsset;
      var row := cfg.instruments(q.instrument);
      if v.kill { return Kill; }
      if v.pause { return Pause; }
      if q.instrument !in account.slotOf || account.slotOf[q.instrument] >= |account.insts| { return NotTraded; }
      if q.instrument !in cfg.allowed { return NotAllowed; }
      r := StatusCheck(q, row.status);
      if r != NoReject { return; }
      if q.qty <= 0 || (q.ordType == Limit && q.px <= 0) { return BadOrder; }
      OpenSums(q.instrument);
      var refPx := RefPx(q.px, v.mid2);
      var i := account.insts[account.slotOf[q.instrument]];
      if row.minQtyLots > 0 && q.qty < row.minQtyLots { return MinQty; }
      var notional := Notional(i, refPx, q.qty);
      if row.minNotional > 0 && notional < row.minNotional { return MinNotional; }
      if cfg.lim.maxOrderQty != 0 && q.qty > cfg.lim.maxOrderQty { return MaxOrderQty; }
      if cfg.lim.maxOrderNotional != 0 && notional > cfg.lim.maxOrderNotional { return MaxOrderNotional; }
      PositionVerdictExact(q.instrument, q.side, q.qty, refPx);
      r := PositionVerdict(q.instrument, q.side, q.qty, refPx);
      if r != NoReject { return; }
      if cfg.lim.maxOpenOrders != 0 && orders.n >= cfg.lim.maxOpenOrders { return MaxOpenOrders; }
      if rate.enabled && orders.live[q.instrument] >= rate.params.maxOpen { return OpenOrderLimit; }
      if !InBand(cfg.lim.priceBandBp, q.px, v.mid2) { return PriceBand; }
      if cfg.lim.spotOnly && Reservation(i, q.side, refPx, q.qty) > Available(account.Value(), q.instrument, q.side) {
        return Insufficient(q.side);
      }
      if !rate.WouldAllow(q.instrument, RateModelModule.Add, 0, v.now) { return RateLimit; }
      return NoReject;
    }

    method GateReplace(row: OrderRow, px: int, qty: int, v: Env) returns (r: RejectReason)
      requires Valid() && Trades(account.Value(), row.instrument)
      ensures Valid() && r == CheckReplace(cfg, View(), row, px, qty,
                                v.(rateOk := RateOk(row.instrument, RateModelModule.Amend, Age(row, v.now), v.now)))
    {
      hide PositionCheck, SumRows, Notional, Reservation, Insufficient, Parts, SideAsset;
      var inst := cfg.instruments(row.instrument);
      if v.kill { return Kill; }
      if v.pause { return Pause; }
      if inst.status == Halted || inst.status == CancelOnly { return InstrumentStatus; }
      if qty <= row.cum || px <= 0 { return BadOrder; }
      if inst.minQtyLots > 0 && qty < inst.minQtyLots { return MinQty; }
      var i := account.insts[account.slotOf[row.instrument]];
      var notional := Notional(i, px, qty);
      if cfg.lim.maxOrderQty != 0 && qty > cfg.lim.maxOrderQty { return MaxOrderQty; }
      if cfg.lim.maxOrderNotional != 0 && notional > cfg.lim.maxOrderNotional { return MaxOrderNotional; }
      var newLeaves := qty - row.cum;
      if newLeaves > row.leaves {
        PositionVerdictExact(row.instrument, row.side, newLeaves - row.leaves, px);
        r := PositionVerdict(row.instrument, row.side, newLeaves - row.leaves, px);
        if r != NoReject { return; }
      }
      if !InBand(cfg.lim.priceBandBp, px, v.mid2) { return PriceBand; }
      if cfg.lim.spotOnly {
        var need := Reservation(i, row.side, px, newLeaves);
        var held := Reservation(i, row.side, row.px, row.leaves);
        if need - held > Available(account.Value(), row.instrument, row.side) { return Insufficient(row.side); }
      }
      OpenSums(row.instrument);
      if !rate.WouldAllow(row.instrument, RateModelModule.Amend, Age(row, v.now), v.now) { return RateLimit; }
      return NoReject;
    }

    // Reports.

    /** An order ends: its lock is released and its row erased. */
    method FinishRow(i: nat)
      requires Valid() && i < orders.n
      modifies account, orders, orders.index, orders.rows, orders.live, orders.openBuy, orders.openSell
      ensures Valid() && View() == Finish(old(View()), i)
    {
      hide SumRows, FindRow, Release, ExecOrderTable.OrderTable.Valid, NullRouter.Valid,
           RateModelModule.RateModel.Valid;
      Apart();
      OrdersDense(i);
      FindUnique(orders.contents, i);
      FinishKeepsOk(View(), i);
      var row := orders.rows[i];
      account.ReleaseFunds(row.instrument, row.side, row.px, row.leaves);
      orders.Erase(row.id);
      SameSlots(old(account.Value()), account.Value());
    }

    lemma Apart()
      ensures account !in orders.Repr() && this !in orders.Repr() && router !in orders.Repr()
             && router.q !in orders.Repr()
      ensures rate !in orders.Repr() && rate.counters !in orders.Repr()
    {
    }

    lemma OrdersDense(i: nat)
      requires orders.Valid() && i < orders.n
      ensures orders.n == |orders.contents| && orders.rows[i] == orders.contents[i]
    {
    }

    lemma SameSlots(a: Acct, b: Acct)
      requires SameShape(a, b)
      ensures forall inst :: Trades(b, inst) <==> Trades(a, inst)
    {
    }

    /** Writes a row's fields other than its key and leaves. */
    method Touch(i: nat, r: OrderRow)
      requires Valid() && i < orders.n
      requires var q := orders.contents[i];
               r.id == q.id && r.instrument == q.instrument && r.side == q.side && r.leaves == q.leaves
      modifies orders`contents, orders.rows
      ensures Valid() && View() == old(View()).(rows := old(View()).rows[i := r])
    {
      hide SumRows, FindRow, ExecOrderTable.OrderTable.Valid, NullRouter.Valid, RateModelModule.RateModel.Valid,
           WellFormed, Trades;
      Apart();
      OrdersDense(i);
      UniqueUpdate(orders.contents, i, r);
      orders.SetRow(i, r);
    }

    method ChangeLeaves(i: nat, leaves: int)
      requires Valid() && i < orders.n
      modifies orders`contents, orders.rows, orders.openBuy, orders.openSell
      ensures Valid() && View() == old(View()).(rows := old(View()).rows[i := old(View()).rows[i].(leaves := leaves)])
    {
      hide SumRows, FindRow, ExecOrderTable.OrderTable.Valid, NullRouter.Valid, RateModelModule.RateModel.Valid,
           WellFormed, Trades;
      Apart();
      OrdersDense(i);
      UniqueUpdate(orders.contents, i, orders.contents[i].(leaves := leaves));
      orders.SetLeaves(i, leaves);
    }

    method Book(i: nat, rep: Report)
      requires Valid() && i < orders.n
      modifies account
      ensures Valid()
      ensures var e := old(View());
              var r := e.rows[i];
              var a := OnFill(e.acct, r.instrument, r.side, rep.lastPx, rep.lastQty, r.px, rep.fee, rep.feeInBase);
              View() == e.(acct := a)
    {
      hide SumRows, FindRow, ExecOrderTable.OrderTable.Valid, NullRouter.Valid, RateModelModule.RateModel.Valid,
           WellFormed, OnFill;
      Apart();
      OrdersDense(i);
      var r := orders.rows[i];
      account.OnFillReport(r.instrument, r.side, rep.lastPx, rep.lastQty, r.px, rep.fee, rep.feeInBase);
      SameSlots(old(account.Value()), account.Value());
    }

    method FillRow(i: nat, rep: Report)
      requires Valid() && i < orders.n
      modifies orders`contents, orders.rows, orders.openBuy, orders.openSell
      ensures Valid() && View() == old(View()).(rows := old(View()).rows[i := FilledRow(old(View()).rows[i], rep)])
    {
      hide Valid;
      OrdersAgree();
      var r := orders.rows[i];
      ghost var rows := View().rows;
      Touch(i, r.(cum := r.cum + rep.lastQty));
      ChangeLeaves(i, if r.leaves > rep.lastQty then r.leaves - rep.lastQty else 0);
      OrdersAgree();
      Touch(i, orders.rows[i].(status := if rep.kind == FullFill then FullyFilled else PartiallyFilled));
      assert View().rows == rows[i := FilledRow(rows[i], rep)];
    }

    /** An execution: the account, then the row, then its end if no lot is left. */
    method OnExecution(i: nat, rep: Report)
      requires Valid() && i < orders.n
      modifies this`st, account, orders, orders.index, orders.rows, orders.live, orders.openBuy, orders.openSell
      ensures Valid() && View() == ApplyFill(old(View()), i, rep)
    {
      hide OnFill, Finish, FilledRow, Parts, Sized, SumRows, WellFormed;
      OrdersAgree();
      Book(i, rep);
      FillRow(i, rep);
      Publish(st.(fills := st.fills + 1));
      OrdersAgree();
      if orders.rows[i].leaves == 0 {
        FinishRow(i);
      }
    }

    method OnReplaced(i: nat)
      requires Valid() && i < orders.n
      modifies this`st, account, orders`contents, orders.rows, orders.openBuy, orders.openSell
      ensures Valid() && View() == ApplyReplaced(old(View()), i)
    {
      hide Parts, Sized, SumRows, WellFormed, Reserve, Release;
      OrdersAgree();
      var row := orders.rows[i];
      ReleaseFor(row.instrument, row.side, row.px, row.leaves);
      ReplaceRow(i);
      OrdersAgree();
      row := orders.rows[i];
      ReserveFor(row.instrument, row.side, row.px, row.leaves);
      Publish(st.(replaced := st.replaced + 1));
    }

    method ReplaceRow(i: nat)
      requires Valid() && i < orders.n
      modifies orders`contents, orders.rows, orders.openBuy, orders.openSell
      ensures Valid() && View() == old(View()).(rows := old(View()).rows[i := ReplacedRow(old(View()).rows[i])])
    {
      hide Valid;
      OrdersAgree();
      ghost var rows := View().rows;
      var r := orders.rows[i];
      Touch(i, r.(px := r.newPx, qty := r.newQty));
      OrdersAgree();
      ChangeLeaves(i, orders.rows[i].qty - r.cum);
      OrdersAgree();
      Touch(i, orders.rows[i].(pendingReplace := false));
      assert View().rows == rows[i := ReplacedRow(rows[i])];
    }

    method ReserveFor(inst: nat, side: Side, px: int, qty: int)
      requires Valid() && Trades(View().acct, inst)
      modifies account
      ensures Valid() && View() == old(View()).(acct := Reserve(old(View()).acct, inst, side, px, qty))
    {
      hide SumRows, ExecOrderTable.OrderTable.Valid, NullRouter.Valid, RateModelModule.RateModel.Valid, WellFormed,
           Reserve;
      Apart();
      account.ReserveFunds(inst, side, px, qty);
      SameSlots(old(account.Value()), account.Value());
    }

    method ReleaseFor(inst: nat, side: Side, px: int, qty: int)
      requires Valid() && Trades(View().acct, inst)
      modifies account
      ensures Valid() && View() == old(View()).(acct := Release(old(View()).acct, inst, side, px, qty))
    {
      hide SumRows, ExecOrderTable.OrderTable.Valid, NullRouter.Valid, RateModelModule.RateModel.Valid, WellFormed,
           Release;
      Apart();
      account.ReleaseFunds(inst, side, px, qty);
      SameSlots(old(account.Value()), account.Value());
    }

    /** Applies a venue's report; the order of updates is that of the engine's step. */
    method OnReport(rep: Report, now: int)
      requires Valid()
      modifies this`st, account, orders, orders.index, orders.rows, orders.live, orders.openBuy, orders.openSell
      ensures Valid() && View() == ApplyReport(old(View()), rep, now)
    {
      hide Valid, ApplyFill, ApplyReplaced, FindRow, Ok, Release, SwapRemove, WellFormed;
      var p := FindOrder(rep.id);
      if p == None {
        Publish(st.(unsolicited := st.unsolicited + 1));
        return;
      }
      OrdersAgree();
      var i, row := p.value, orders.rows[p.value];
      match rep.kind {
        case Acked =>
          Touch(i, row.(status := New, tAck := now));
          Publish(st.(acks := st.acks + 1));
        case PartialFill => OnExecution(i, rep);
        case FullFill => OnExecution(i, rep);
        case Replaced => OnReplaced(i);
        case Canceled =>
          Publish(st.(canceled := st.canceled + 1));
          FinishRow(i);
        case Expired =>
          Publish(st.(expired := st.expired + 1));
          FinishRow(i);
        case Rejected =>
          Publish(st.(venueRejects := st.venueRejects + 1));
          FinishRow(i);
        case CancelRejected => Touch(i, row.(pendingCancel := false, pendingReplace := false));
        case Restated =>
      }
    }

    method FindOrder(id: nat) returns (p: Option<nat>)
      requires Valid()
      ensures Valid() && p == FindRow(View().rows, id)
    {
      hide SumRows, ExecOrderTable.OrderTable.Valid, NullRouter.Valid, RateModelModule.RateModel.Valid, WellFormed,
           Trades, FindRow;
      Apart();
      p := orders.Find(id);
    }

    // Requests.

    method IssueId() returns (id: nat)
      requires Valid()
      modifies orders`counter
      ensures Valid() && id == NextId(old(View()).gen, old(View()).counter)
      ensures View() == old(View()).(counter := old(View()).counter + 1)
    {
      hide SumRows, FindRow, ExecOrderTable.OrderTable.Valid, NullRouter.Valid, RateModelModule.RateModel.Valid,
           WellFormed, Trades;
      Apart();
      id := orders.NextId();
    }

    method InsertRow(r: OrderRow)
      requires Valid() && Trades(View().acct, r.instrument)
      modifies orders, orders.index, orders.rows, orders.live, orders.openBuy, orders.openSell
      ensures Valid() && View() == old(View()).(rows := Inserted(old(View()).rows, old(View()).maxRows, r))
    {
      hide SumRows, FindRow, ExecOrderTable.OrderTable.Valid, NullRouter.Valid, RateModelModule.RateModel.Valid,
           WellFormed, Trades;
      Apart();
      UniqueAppend(orders.contents, r);
      var _ := orders.Insert(r);
    }

    method EraseRow(id: nat)
      requires Valid()
      modifies orders, orders.index, orders.rows, orders.live, orders.openBuy, orders.openSell
      ensures Valid() && View() == old(View()).(rows := Erased(old(View()).rows, id))
    {
      hide SumRows, FindRow, ExecOrderTable.OrderTable.Valid, NullRouter.Valid, RateModelModule.RateModel.Valid,
           WellFormed, Trades;
      Apart();
      var p := orders.Find(id);
      if p.Some? {
        FindSwapRemove(orders.contents, p.value);
      }
      orders.Erase(id);
    }

    method Route(id: nat, kind: ReqType, tif: Tif) returns (ok: bool)
      requires Valid()
      modifies router, router.q
      ensures Valid() && ok == Fits(old(System()), kind, tif)
      ensures System() == old(System()).(q := if ok then old(System()).q + Answers(id, kind, tif) else old(System()).q)
    {
      hide SumRows, FindRow, ExecOrderTable.OrderTable.Valid, NullRouter.Valid, RateModelModule.RateModel.Valid,
           WellFormed, Trades;
      Apart();
      ok := router.Submit(id, kind, tif);
    }

    method Charge(inst: nat, op: RateModelModule.RateOp, age: int, now: int)
      requires Valid() && inst < rate.counters.Length
      requires op == RateModelModule.Cancel || rate.WouldAllow(inst, op, age, now)
      modifies rate, rate.counters
      ensures Valid() && System() == old(System())
      ensures Gauges() == ChargeOne(Terms(), old(Gauges()), inst, op, age, now)
    {
      hide SumRows, FindRow, ExecOrderTable.OrderTable.Valid, NullRouter.Valid, RateModelModule.RateModel.Valid,
           WellFormed, Trades, RateModelModule.Charged;
      Apart();
      rate.Charge(inst, op, age, now);
    }

    /** What the gate sees at a request, the rate counter included. */
    function Seen(v: Env, inst: nat, op: RateModelModule.RateOp, age: int): Env
      reads rate.counters
    {
      v.(rateOk := RateOk(inst, op, age, v.now))
    }

    /** The verdict on a new order, the full table included. */
    method Verdict(q: Request, v: Env) returns (r: RejectReason)
      requires Valid()
      ensures Valid() && r == SubmitVerdict(cfg, View(), q, Seen(v, q.instrument, RateModelModule.Add, 0))
    {
      hide Valid, Ok, CheckNew;
      r := GateNew(q, v);
      OrdersAgree();
      if r == NoReject && orders.n == orders.rows.Length {
        r := TableFull;
      }
    }

    /** The verdict's facts that placing an order relies on. */
    lemma VerdictFacts(q: Request, v: Env)
      requires Valid() && SubmitVerdict(cfg, View(), q, v) == NoReject
      requires v.rateOk == RateOk(q.instrument, RateModelModule.Add, 0, v.now)
      ensures Trades(View().acct, q.instrument) && q.instrument < rate.counters.Length
      ensures rate.WouldAllow(q.instrument, RateModelModule.Add, 0, v.now)
    {
      hide SumRows, Parts, PositionCheck;
    }

    /** The id of a new order that is accepted and routed, or the invalid one. */
    ghost function SubmitId(q: Request, v: Env): nat
      requires Valid()
      reads Repr()
    {
      if SubmitVerdict(cfg, View(), q, v) == NoReject && Fits(System(), NewReq, q.tif)
      then NextId(View().gen, View().counter) else ExecOrderTable.INVALID_ORDER
    }

    /** A new order: gate, row, router, then the reservation and the rate counter. */
    method SubmitOrder(q: Request, v: Env) returns (id: nat)
      requires Valid()
      modifies Repr()
      ensures Valid() && System() == old(After(NSubmit(q, Seen(v, q.instrument, RateModelModule.Add, 0))))
      ensures id == old(SubmitId(q, Seen(v, q.instrument, RateModelModule.Add, 0)))
      ensures Gauges() == old(GaugesAfter(NSubmit(q, Seen(v, q.instrument, RateModelModule.Add, 0)), v.now))
    {
      hide Valid, Ok, SubmitVerdict, Inserted, Erased, Reserve, Answers, GaugesAfter, ChargeOne;
      SubmitCharges(q, Seen(v, q.instrument, RateModelModule.Add, 0));
      var r := Verdict(q, v);
      if r == NoReject {
        id := Place(q, Seen(v, q.instrument, RateModelModule.Add, 0));
      } else {
        Refuse(r);
        id := ExecOrderTable.INVALID_ORDER;
      }
    }

    /** A new order is charged when it is routed. */
    lemma SubmitCharges(q: Request, v: Env)
      requires Valid()
      ensures GaugesAfter(NSubmit(q, v), v.now) ==
                if SubmitVerdict(cfg, View(), q, v) == NoReject && Fits(System(), NewReq, q.tif)
                then ChargeOne(Terms(), Gauges(), q.instrument, RateModelModule.Add, 0, v.now) else Gauges()
    {
      hide Parts, Sized, SubmitVerdict, ChargeOne;
    }

    /** The step of an order that the gate lets through. */
    lemma PlaceIs(q: Request, v: Env)
      requires Valid() && SubmitVerdict(cfg, View(), q, v) == NoReject
      ensures var s, e := System(), View();
              var row := NewRow(q, NextId(e.gen, e.counter), v);
              var rows := Inserted(e.rows, e.maxRows, row);
              After(NSubmit(q, v)) ==
                if Fits(s, NewReq, q.tif) then
                  s.(e := e.(counter := e.counter + 1, rows := rows, st := e.st.(ordersNew := e.st.ordersNew + 1),
                             acct := Reserve(e.acct, q.instrument, q.side, row.px, q.qty)),
                     q := s.q + Answers(row.id, NewReq, q.tif))
                else s.(e := e.(counter := e.counter + 1, rows := Erased(rows, row.id),
                                st := CountReject(e.st, RingFull)))
      ensures SubmitId(q, v) == if Fits(System(), NewReq, q.tif) then NextId(View().gen, View().counter)
                                else ExecOrderTable.INVALID_ORDER
    {
      hide Parts, Sized, SubmitVerdict, Inserted, Erased, Answers, Reserve, WellFormed;
      LegalRuns.VerdictMeans(cfg, View(), q, v);
    }

    /** The row is recorded before the request is offered to the router. */
    method Record(q: Request, v: Env) returns (id: nat, routed: bool)
      requires Valid() && Trades(View().acct, q.instrument)
      modifies orders, orders.index, orders.rows, orders.live, orders.openBuy, orders.openSell, router, router.q
      ensures Valid() && id == NextId(old(View()).gen, old(View()).counter)
             && routed == Fits(old(System()), NewReq, q.tif)
      ensures var s, e := old(System()), old(View());
              System() == s.(e := e.(counter := e.counter + 1, rows := Inserted(e.rows, e.maxRows, NewRow(q, id, v))),
                             q := if routed then s.q + Answers(id, NewReq, q.tif) else s.q)
    {
      hide Valid, Inserted, Answers;
      id := IssueId();
      InsertRow(NewRow(q, id, v));
      routed := Route(id, NewReq, q.tif);
    }

    /** A routed order is locked, charged and counted. */
    method Commit(q: Request, px: int, now: int)
      requires Valid() && Trades(View().acct, q.instrument) && q.instrument < rate.counters.Length
      requires rate.WouldAllow(q.instrument, RateModelModule.Add, 0, now)
      modifies this`st, account, rate, rate.counters
      ensures Valid()
      ensures var s, e := old(System()), old(View());
              System() == s.(e := e.(acct := Reserve(e.acct, q.instrument, q.side, px, q.qty),
                                     st := e.st.(ordersNew := e.st.ordersNew + 1)))
      ensures Gauges() == ChargeOne(Terms(), old(Gauges()), q.instrument, RateModelModule.Add, 0, now)
    {
      hide Valid, Ok, Reserve, ChargeOne, WellFormed;
      ReserveFor(q.instrument, q.side, px, q.qty);
      Charge(q.instrument, RateModelModule.Add, 0, now);
      Counters();
      Publish(st.(ordersNew := st.ordersNew + 1));
    }

    /** The row of an order that the router refused goes again. */
    method Withdraw(id: nat)
      requires Valid()
      modifies this`st, orders, orders.index, orders.rows, orders.live, orders.openBuy, orders.openSell
      ensures Valid()
      ensures var s, e := old(System()), old(View());
              System() == s.(e := e.(rows := Erased(e.rows, id), st := CountReject(e.st, RingFull)))
    {
      hide Valid, Ok, Erased;
      EraseRow(id);
      Refuse(RingFull);
    }

    method Place(q: Request, v: Env) returns (id: nat)
      requires Valid() && SubmitVerdict(cfg, View(), q, v) == NoReject
      requires v.rateOk == RateOk(q.instrument, RateModelModule.Add, 0, v.now)
      modifies Repr()
      ensures Valid() && System() == old(After(NSubmit(q, v))) && id == old(SubmitId(q, v))
      ensures Gauges() == old(GaugesAfter(NSubmit(q, v), v.now))
    {
      hide Valid, Ok, SubmitVerdict, Inserted, Erased, Reserve, Answers, RateOk, WellFormed, After, SubmitId, Fits,
           View, Trades, GaugesAfter, ChargeOne, Gauges, Terms, RateModelModule.RateModel.WouldAllow;
      SubmitCharges(q, v);
      PlaceIs(q, v);
      VerdictFacts(q, v);
      var routed;
      id, routed := Record(q, v);
      if routed {
        Commit(q, NewRow(q, id, v).px, v.now);
      } else {
        Withdraw(id);
        id := ExecOrderTable.INVALID_ORDER;
      }
    }

    /** What the gate sees at a replace: the amend is charged by the live row's age. */
    ghost function SeenAt(id: nat, v: Env): Env
      reads this, orders, account, rate.counters
    {
      var p := FindRow(View().rows, id);
      if p.None? then v
      else
        var r := View().rows[p.value];
        Seen(v, r.instrument, RateModelModule.Amend, Age(r, v.now))
    }

    lemma SameTime(id: nat, v: Env)
      ensures SeenAt(id, v).now == v.now
    {
    }

    /** Why a replace stops before the router, if it does. */
    ghost function ReplaceVerdict(id: nat, px: int, qty: int, v: Env): RejectReason
      requires Ok(View())
      reads this, orders, account
    {
      var e := View();
      var p := FindRow(e.rows, id);
      if p.None? || e.rows[p.value].pendingCancel || e.rows[p.value].pendingReplace then UnknownOrder
      else CheckReplace(cfg, e, e.rows[p.value], px, qty, v)
    }

    method CheckAmend(id: nat, px: int, qty: int, v: Env) returns (r: RejectReason, i: nat)
      requires Valid()
      ensures Valid() && r == ReplaceVerdict(id, px, qty, SeenAt(id, v))
      ensures r == NoReject ==>
                && i < orders.n <= orders.rows.Length && orders.rows[i].id == id
                && SeenAt(id, v) == SeenOf(i, v) == SeenOf(i, SeenOf(i, v))
    {
      hide Parts, Sized, Ok, CheckReplace, FindRow, WellFormed;
      i := 0;
      var p := FindOrder(id);
      OrdersAgree();
      if p.None? || orders.rows[p.value].pendingCancel || orders.rows[p.value].pendingReplace {
        return UnknownOrder, i;
      }
      i := p.value;
      RowTrades(i);
      r := GateReplace(orders.rows[i], px, qty, v);
      OrdersAgree();
    }

    /** An amend of a live order; refused when it is unknown or a request on it is pending. */
    method ReplaceOrder(id: nat, px: int, qty: int, v: Env) returns (ok: bool)
      requires Valid()
      modifies Repr()
      ensures Valid() && System() == old(After(NReplace(id, px, qty, SeenAt(id, v))))
      ensures Gauges() == old(GaugesAfter(NReplace(id, px, qty, SeenAt(id, v)), v.now))
      ensures ok <==>
                old(ReplaceVerdict(id, px, qty, SeenAt(id, v))) == NoReject && Fits(old(System()), ReplaceReq, GTC)
    {
      hide Parts, Sized, Ok, Fits, After, WellFormed, FindRow, ReplaceVerdict, SumRows, GaugesAfter, Gauges, Terms, Age,
           RateOk, Seen, SeenOf, SeenAt;
      SameTime(id, v);
      ReplaceStops(id, px, qty, SeenAt(id, v));
      var r, i := CheckAmend(id, px, qty, v);
      if r != NoReject {
        Refuse(r);
        return false;
      }
      ok := Amend(i, px, qty, SeenOf(i, v));
    }

    /** What the gate sees at a replace of the i-th row. */
    function SeenOf(i: nat, v: Env): Env
      requires i < orders.rows.Length
      reads orders.rows, rate.counters
    {
      Seen(v, orders.rows[i].instrument, RateModelModule.Amend, Age(orders.rows[i], v.now))
    }

    lemma ReplaceStops(id: nat, px: int, qty: int, v: Env)
      requires Valid()
      ensures var r := ReplaceVerdict(id, px, qty, v);
              r != NoReject ==> After(NReplace(id, px, qty, v)) == System().(e := View().(st := CountReject(st, r)))
                                && GaugesAfter(NReplace(id, px, qty, v), v.now) == Gauges()
    {
      hide Parts, Sized, CheckReplace, FindRow, SameShape, WellFormed;
    }

    lemma RowTrades(i: nat)
      requires Valid() && i < orders.n
      ensures i < |View().rows| && View().rows[i] == orders.rows[i] && Trades(View().acct, orders.rows[i].instrument)
      ensures orders.rows[i].instrument < rate.counters.Length && FindRow(View().rows, orders.rows[i].id) == Some(i)
    {
      hide SumRows, FindRow;
      FindUnique(View().rows, i);
    }

    /** The step of a replace that the gate lets through. */
    lemma AmendIs(i: nat, px: int, qty: int, v: Env)
      requires Valid() && i < orders.n && v == SeenOf(i, v)
      requires ReplaceVerdict(orders.rows[i].id, px, qty, v) == NoReject
      ensures var s, e, row := System(), View(), orders.rows[i];
              && i < |e.rows| && e.rows[i] == row
              && After(NReplace(row.id, px, qty, v)) ==
                   if Fits(s, ReplaceReq, GTC) then
                     s.(e := e.(rows := e.rows[i := row.(pendingReplace := true, newPx := px, newQty := qty)],
                                st := e.st.(ordersReplace := e.st.ordersReplace + 1)),
                        q := s.q + Answers(row.id, ReplaceReq, GTC))
                   else s.(e := e.(st := CountReject(e.st, RingFull)))
      ensures var row := orders.rows[i];
              && row.instrument < rate.counters.Length
              && rate.WouldAllow(row.instrument, RateModelModule.Amend, Age(row, v.now), v.now)
    {
      hide Parts, Sized, FindRow, SameShape, WellFormed, Answers, PositionCheck, Notional, Reservation;
      RowTrades(i);
    }

    /** An amend is charged, by its order's age, when it is routed. */
    lemma AmendCharges(i: nat, px: int, qty: int, v: Env)
      requires Valid() && i < orders.n && ReplaceVerdict(orders.rows[i].id, px, qty, v) == NoReject
      ensures var row := orders.rows[i];
              GaugesAfter(NReplace(row.id, px, qty, v), v.now) ==
                if Fits(System(), ReplaceReq, GTC)
                then ChargeOne(Terms(), Gauges(), row.instrument, RateModelModule.Amend, Age(row, v.now), v.now)
                else Gauges()
    {
      hide Parts, Sized, FindRow, ChargeOne, WellFormed, CheckReplace;
      RowTrades(i);
    }

    method Amend(i: nat, px: int, qty: int, v: Env) returns (ok: bool)
      requires Valid() && i < orders.n && v == SeenOf(i, v)
      requires ReplaceVerdict(orders.rows[i].id, px, qty, v) == NoReject
      modifies Repr()
      ensures Valid() && ok == Fits(old(System()), ReplaceReq, GTC)
      ensures System() == old(After(NReplace(orders.rows[i].id, px, qty, v)))
      ensures Gauges() == old(GaugesAfter(NReplace(orders.rows[i].id, px, qty, v), v.now))
    {
      hide Valid, Ok, Answers, WellFormed, After, Fits, View, ReplaceVerdict, CheckReplace, Seen, Account.Value,
           GaugesAfter, Gauges, Terms, ChargeOne;
      OrdersAgree();
      AmendIs(i, px, qty, v);
      AmendCharges(i, px, qty, v);
      var row := orders.rows[i];
      SameAnswers(row.id, row.tif);
      ok := RouteOrRefuse(row.id, ReplaceReq, row.tif);
      if ok {
        Charge(row.instrument, RateModelModule.Amend, Age(row, v.now), v.now);
        Touch(i, row.(pendingReplace := true, newPx := px, newQty := qty));
        Counters();
        Publish(st.(ordersReplace := st.ordersReplace + 1));
      }
    }

    /** Offers a request to the router; a full queue is counted. */
    method RouteOrRefuse(id: nat, kind: ReqType, tif: Tif) returns (ok: bool)
      requires Valid()
      modifies this`st, router, router.q
      ensures Valid() && ok == Fits(old(System()), kind, tif)
      ensures var s := old(System());
              System() == if ok then s.(q := s.q + Answers(id, kind, tif))
                          else s.(e := s.e.(st := CountReject(s.e.st, RingFull)))
    {
      hide Valid, Answers, Fits;
      ok := Route(id, kind, tif);
      if !ok {
        Refuse(RingFull);
      }
    }

    lemma SameAnswers(id: nat, tif: Tif)
      ensures Answers(id, ReplaceReq, tif) == Answers(id, ReplaceReq, GTC)
      ensures Answers(id, CancelReq, tif) == Answers(id, CancelReq, GTC)
      ensures forall s :: Fits(s, ReplaceReq, tif) == Fits(s, ReplaceReq, GTC)
      ensures forall s :: Fits(s, CancelReq, tif) == Fits(s, CancelReq, GTC)
    {
    }

    /** The step of a cancel: nothing for an order unknown or leaving, else its request when the queue has room. */
    lemma CancelIs(id: nat, now: int)
      requires Valid()
      ensures var s, e, p := System(), View(), FindRow(View().rows, id);
              && (p.None? || e.rows[p.value].pendingCancel ==>
                    After(NCancel(id)) == s && GaugesAfter(NCancel(id), now) == Gauges())
              && (p.Some? && !e.rows[p.value].pendingCancel ==>
                    var row := e.rows[p.value];
                    if Fits(s, CancelReq, GTC) then
                      && After(NCancel(id))
                         == s.(e := e.(rows := e.rows[p.value := row.(pendingCancel := true)],
                                       st := e.st.(ordersCancel := e.st.ordersCancel + 1)),
                               q := s.q + Answers(id, CancelReq, GTC))
                      && GaugesAfter(NCancel(id), now)
                         == ChargeOne(Terms(), Gauges(), row.instrument, RateModelModule.Cancel, Age(row, now), now)
                    else
                      After(NCancel(id)) == s.(e := e.(st := CountReject(e.st, RingFull)))
                      && GaugesAfter(NCancel(id), now) == Gauges())
    {
      hide Parts, Sized, FindRow, SameShape, WellFormed, Answers, ChargeOne;
    }

    /** A routed cancel is marked, charged and counted. */
    method MarkLeaving(i: nat, now: int)
      requires Valid() && i < orders.n
      modifies this`st, orders`contents, orders.rows, rate, rate.counters
      ensures Valid()
      ensures var s, e := old(System()), old(View());
              && i < |e.rows|
              && System() == s.(e := e.(rows := e.rows[i := e.rows[i].(pendingCancel := true)],
                                        st := e.st.(ordersCancel := e.st.ordersCancel + 1)))
              && Gauges() == ChargeOne(Terms(), old(Gauges()), e.rows[i].instrument, RateModelModule.Cancel,
                                       Age(e.rows[i], now), now)
    {
      hide Valid, Ok, FindRow, WellFormed, ChargeOne;
      OrdersAgree();
      RowTrades(i);
      var row := orders.rows[i];
      Touch(i, row.(pendingCancel := true));
      Charge(row.instrument, RateModelModule.Cancel, Age(row, now), now);
      Counters();
      Publish(st.(ordersCancel := st.ordersCancel + 1));
    }

    /** Never refused for risk; true for an order whose cancel is already pending. */
    method CancelOrder(id: nat, now: int) returns (ok: bool)
      requires Valid()
      modifies Repr()
      ensures Valid() && System() == old(After(NCancel(id))) && Gauges() == old(GaugesAfter(NCancel(id), now))
      ensures ok <==> && FindRow(old(View()).rows, id).Some?
                      && (CancelAsked(old(View()), id) ==> Fits(old(System()), CancelReq, GTC))
    {
      hide Valid, Ok, FindRow, Answers, After, GaugesAfter, ChargeOne, Fits, Terms;
      CancelIs(id, now);
      var p := FindOrder(id);
      OrdersAgree();
      if p.None? {
        return false;
      }
      if orders.rows[p.value].pendingCancel {
        return true;
      }
      SameAnswers(id, orders.rows[p.value].tif);
      ok := RouteOrRefuse(id, CancelReq, orders.rows[p.value].tif);
      if ok {
        OrdersAgree();
        MarkLeaving(p.value, now);
      }
    }

    method CancelAll(now: int)
      requires Valid()
      modifies Repr()
      ensures Valid() && System() == CancelFrom(cfg, old(System()), 0)
    {
      hide Parts, Sized, Ok, NStep;
      var i := 0;
      OrdersAgree();
      while i < orders.n
        invariant Valid() && orders.n == |View().rows|
        invariant CancelFrom(cfg, System(), i) == CancelFrom(cfg, old(System()), 0)
        decreases |View().rows| - i
      {
        OrdersAgree();
        RowTrades(i);
        CancelKeepsSize(cfg, System(), orders.rows[i].id);
        var _ := CancelOrder(orders.rows[i].id, now);
        OrdersAgree();
        i := i + 1;
      }
    }

    method Take() returns (r: Option<Report>)
      requires Valid()
      modifies router
      ensures Valid() && View() == old(View())
      ensures old(System()).q == [] ==> r == None && System() == old(System())
      ensures old(System()).q != [] ==> r == Some(old(System()).q[0])
      ensures old(System()).q != [] ==> System() == old(System()).(q := old(System()).q[1..])
    {
      hide SumRows, FindRow, ExecOrderTable.OrderTable.Valid, NullRouter.Valid, RateModelModule.RateModel.Valid,
           WellFormed, Trades;
      Apart();
      r := router.Pop();
    }

    /** One turn of poll: the oldest report, if any, is taken and applied. */
    method PollOne(now: int) returns (more: bool)
      requires Valid()
      modifies Repr()
      ensures Valid() && System() == old(After(NPoll(now))) && more == (old(System()).q != [])
      ensures Gauges() == old(Gauges())
    {
      hide Valid, Ok, ApplyReport, SumRows, WellFormed;
      var r := Take();
      if r.Some? {
        OnReport(r.value, now);
      }
      more := r.Some?;
    }

    /** Hands every queued report to the order table and the account, oldest first. */
    method PollReports(now: int)
      requires Valid()
      modifies Repr()
      ensures Valid() && System() == Drain(cfg, old(System()), now)
    {
      hide Parts, Sized, Ok, NStep, SumRows, WellFormed;
      var more := PollOne(now);
      PollIsDrain(cfg, old(System()), now);
      while more
        invariant Valid() && Drain(cfg, System(), now) == Drain(cfg, old(System()), now)
        invariant !more ==> System().q == []
        decreases |System().q|, more
      {
        PollIsDrain(cfg, System(), now);
        more := PollOne(now);
      }
    }

    lemma PollIsDrain(c: Config, s: Sys, now: int)
      requires Ok(s.e)
      ensures var t := NStep(c, s, NPoll(now));
              Drain(c, t, now) == Drain(c, s, now) && t.q == if s.q == [] then [] else s.q[1..]
    {
      hide Ok, Step, SameShape;
    }

    /** A frame's quote marks its instrument. */
    method MarkQuote(inst: nat, bid: int, ask: int)
      requires Valid()
      modifies account
      ensures Valid() && System() == old(After(NMark(inst, bid, ask))) && Gauges() == old(Gauges())
    {
      hide SumRows, FindRow, ExecOrderTable.OrderTable.Valid, NullRouter.Valid, RateModelModule.RateModel.Valid,
           WellFormed, Trades, Marked;
      Apart();
      account.Mark(inst, bid, ask);
      SameSlots(old(account.Value()), account.Value());
    }

    /** Cancels what is live, then polls while an order is live and the deadline leaves another turn. */
    method Shutdown(now: int, turns: nat)
      requires Valid()
      modifies Repr()
      ensures Valid()
      ensures var s := CancelFrom(cfg, old(System()), 0); System() == if turns == 0 then s else Settle(cfg, s, now)
    {
      hide Parts, Sized, Ok, NStep, SumRows, WellFormed;
      CancelAll(now);
      ghost var s := System();
      var left: nat := turns;
      OrdersAgree();
      while orders.n > 0 && left > 0
        invariant Valid() && orders.n == |View().rows| && left <= turns
        invariant System() == if left == turns then s else Drain(cfg, s, now)
        invariant left < turns ==> s.e.rows != [] && System().q == []
        decreases left
      {
        PollReports(now);
        DrainsDry(cfg, s, now);
        OrdersAgree();
        left := left - 1;
      }
      assert orders.n == 0 ==> System().e.rows == [];
    }

    lemma {:induction false} DrainsDry(c: Config, s: Sys, now: int)
      requires Ok(s.e)
      ensures var t := Drain(c, s, now); t.q == [] && Drain(c, t, now) == t
      decreases |s.q|
    {
      hide Ok, NStep;
      if s.q != [] {
        PollIsDrain(c, s, now);
        DrainsDry(c, NStep(c, s, NPoll(now)), now);
      }
    }

    // Whole sessions.

    /** What the class reads of its counters is what the run's actions are told. */
    lemma StepIs(t: Timed)
      requires Valid()
      ensures var a := Answered(Terms(), Whole(), t.a);
              && RStep(cfg, Terms(), Whole(), t)
                 == Rated(After(a), if a.NPoll? || a.NMark? then Gauges()
                                    else GaugesAfter(a, if a.NCancel? then t.now else a.env.now))
              && match t.a
                 case NSubmit(q, v) => a == NSubmit(q, Seen(v, q.instrument, RateModelModule.Add, 0))
                 case NReplace(id, px, qty, v) => a == NReplace(id, px, qty, SeenAt(id, v))
                 case _ => a == t.a
    {
      hide Parts, Sized, Ok, FindRow, RateModelModule.Allows, CountersAfter, NStep;
      OwnTime(cfg, Terms(), Whole(), Answered(Terms(), Whole(), t.a), t.now);
    }

    method Perform(t: Timed)
      requires Valid()
      modifies Repr()
      ensures Valid() && Whole() == RStep(cfg, Terms(), old(Whole()), t)
    {
      hide Valid, Ok, SumRows, FindRow, After, GaugesAfter, RStep, Answered, Gauges, Terms, View;
      StepIs(t);
      match t.a {
        case NSubmit(q, v) => var _ := SubmitOrder(q, v);
        case NReplace(id, px, qty, v) => var _ := ReplaceOrder(id, px, qty, v);
        case NCancel(id) => var _ := CancelOrder(id, t.now);
        case NPoll(now) => var _ := PollOne(now);
        case NMark(inst, bid, ask) => MarkQuote(inst, bid, ask);
      }
    }

    /** Any mix of requests, polls and marks is a run of the engine, the null venue and the rate counters. */
    method Session(actions: seq<Timed>)
      requires Valid()
      modifies Repr()
      ensures Valid() && Whole() == RRun(cfg, Terms(), old(Whole()), actions)
    {
      hide Parts, Sized, Ok, RStep, SumRows;
      for k := 0 to |actions|
        invariant Valid() && Whole() == RRun(cfg, Terms(), old(Whole()), actions[..k])
      {
        RunOn(cfg, Terms(), old(Whole()), actions, k);
        Perform(actions[k]);
      }
      assert actions[..|actions|] == actions;
    }

    /**
     A whole life: a new context, any short enough session, and shutdown. When what is queued and
     what is live fit the queue, no order is left, no money reserved, and every order was acked.
     */
    method Live(actions: seq<Timed>, now: int, turns: nat) returns (fits: bool)
      requires Valid() && Fresh(System()) && |actions| < COUNTER_IDS && turns > 0
      requires forall j :: 0 <= j < |actions| && actions[j].a.NSubmit? ==> actions[j].a.env.mid2 >= 0
      modifies Repr()
      ensures Valid()
      ensures fits <==> var t := RRun(cfg, Terms(), old(Whole()), actions).s; |t.q| + |t.e.rows| <= t.room
      ensures fits ==> orders.contents == [] && st.ordersNew == st.acks && |account.bal| == |old(account.bal)|
      ensures fits ==> forall k :: 0 <= k < |account.bal| ==> account.bal[k].reserved == 0
    {
      hide Parts, Sized, Ok, NStep, SumRows, WellFormed, NRun, RRun, Done, CancelFrom, Drain, Settle, NLegalRun,
           SameShape;
      ghost var s, x := System(), Whole();
      ghost var done := Done(cfg, Terms(), x, actions);
      Session(actions);
      RatedIsRun(cfg, Terms(), x, actions);
      DonePriced(cfg, Terms(), x, actions);
      ShortRunsAreLegal(cfg, s, done);
      fits := RowsFit();
      Shutdown(now, turns);
      if fits {
        ShutdownLeavesNothing(cfg, s, done, now);
      }
    }

    method RowsFit() returns (fits: bool)
      requires Valid()
      ensures Valid() && fits == (|System().q| + |System().e.rows| <= System().room)
    {
      hide SumRows, ExecOrderTable.OrderTable.Summed;
      Apart();
      OrdersAgree();
      var room := router.Room();
      fits := orders.n <= room;
    }

    lemma OrdersAgree()
      requires Valid()
      ensures orders.n == |orders.contents| <= orders.rows.Length
      ensures forall i :: 0 <= i < orders.n ==> orders.rows[i] == orders.contents[i]
    {
    }
  }
}
