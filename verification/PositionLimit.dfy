/**
 The position limit over whole runs. Leaves grow only when the venue answers a replace, so what
 must fit the limit is the potential of the live rows, replaces in flight included: that is
 exactly what no later behaviour of the venue can carry past the limit, and exactly the
 requests that leave room in it keep it so. The gate's own check leaves room as long as
 nothing is checked on a side where another growing replace is in flight.
 */
module PositionLimit {
  import opened Common
  import opened OrderTypes
  import opened Positions
  import opened AccountModule
  import opened Engine
  import opened LegalRuns
  import opened Reservations

  /** A replace in flight that will give the row more open lots than it has. */
  predicate Growing(r: OrderRow) {
    r.pendingReplace && r.newQty - r.cum > r.leaves
  }

  /** The most lots a row may still fill, its replace in flight included. */
  function PotentialOf(inst: nat, side: Side): OrderRow -> int {
    (r: OrderRow) =>
      if r.instrument == inst && r.side == side then (if Growing(r) then r.newQty - r.cum else r.leaves) else 0
  }

  function Pos(e: Engine, inst: nat): int
    requires Trades(e.acct, inst)
  {
    InstOf(e.acct, inst).pos.qty
  }

  /** Even if everything on a side filled, replaces in flight included, the limit would hold. */
  ghost predicate Limited(e: Engine, inst: nat, max: int) {
    Trades(e.acct, inst) ==>
      && Pos(e, inst) + SumRows(e.rows, PotentialOf(inst, Buy)) <= max
      && Pos(e, inst) - SumRows(e.rows, PotentialOf(inst, Sell)) >= -max
  }

  ghost predicate NoneGrowing(rows: seq<OrderRow>, inst: nat, side: Side) {
    forall i :: 0 <= i < |rows| && rows[i].instrument == inst && rows[i].side == side ==> !Growing(rows[i])
  }

  /** Nothing is checked against a side's open lots while a replace there is about to grow them. */
  ghost predicate Calm(e: Engine, a: Action) {
    match a
    case SubmitA(q, _, _) => NoneGrowing(e.rows, q.instrument, q.side)
    case ReplaceA(id, _, qty, _, _) =>
      var p := FindRow(e.rows, id);
      p.Some? && qty - e.rows[p.value].cum > e.rows[p.value].leaves ==>
        NoneGrowing(e.rows, e.rows[p.value].instrument, e.rows[p.value].side)
    case _ => true
  }

  ghost predicate CalmRun(c: Config, e: Engine, actions: seq<Action>)
    requires Ok(e)
  {
    forall k {:trigger actions[k]} :: 0 <= k < |actions| ==> Calm(Run(c, e, actions[..k]), actions[k])
  }

  lemma {:induction false} SumAtMost(rows: seq<OrderRow>, w: OrderRow -> int, x: OrderRow -> int)
    requires forall i :: 0 <= i < |rows| ==> w(rows[i]) <= x(rows[i])
    ensures SumRows(rows, w) <= SumRows(rows, x)
  {
    if rows != [] {
      SumAtMost(rows[..|rows| - 1], w, x);
    }
  }

  lemma OpenAtMostPotential(rows: seq<OrderRow>, inst: nat, side: Side)
    ensures SumRows(rows, LotsOf(inst, side)) <= SumRows(rows, PotentialOf(inst, side))
    ensures NoneGrowing(rows, inst, side) ==>
              SumRows(rows, LotsOf(inst, side)) == SumRows(rows, PotentialOf(inst, side))
  {
    SumAtMost(rows, LotsOf(inst, side), PotentialOf(inst, side));
    if NoneGrowing(rows, inst, side) {
      SumSame(rows, LotsOf(inst, side), PotentialOf(inst, side));
    }
  }

  lemma PositionVerdict(c: Config, e: Engine, inst: nat, side: Side, add: int, px: int)
    requires Trades(e.acct, inst) && c.lim.maxPosition > 0 && PositionCheck(c, e, inst, side, add, px) == NoReject
    ensures -c.lim.maxPosition <= Worst(e, inst, side, add) <= c.lim.maxPosition
  {
  }

  lemma SubmitVerdictPosition(c: Config, e: Engine, q: Request, v: Env)
    requires WellFormed(e.acct) && SubmitVerdict(c, e, q, v) == NoReject
    ensures Trades(e.acct, q.instrument) && q.qty > 0
    ensures PositionCheck(c, e, q.instrument, q.side, q.qty, RefPx(q.px, v.mid2)) == NoReject
  {
    hide PositionCheck;
  }

  lemma ReplaceVerdictPosition(c: Config, e: Engine, r: OrderRow, px: int, qty: int, v: Env)
    requires WellFormed(e.acct) && Trades(e.acct, r.instrument) && CheckReplace(c, e, r, px, qty, v) == NoReject
    ensures qty - r.cum > r.leaves ==> PositionCheck(c, e, r.instrument, r.side, qty - r.cum - r.leaves, px) == NoReject
  {
    hide PositionCheck;
  }

  /** The position of every instrument but the filled one is untouched, and that one moves by the fill. */
  lemma FillMovesPosition(a: Acct, r: OrderRow, rep: Report, inst: nat)
    requires WellFormed(a) && DistinctSlots(a) && Trades(a, r.instrument) && Trades(a, inst) && rep.lastQty >= 0
    ensures var b := OnFill(a, r.instrument, r.side, rep.lastPx, rep.lastQty, r.px, rep.fee, rep.feeInBase);
            Trades(b, inst) && InstOf(b, inst).pos.qty == InstOf(a, inst).pos.qty +
              (if inst != r.instrument then 0 else if r.side == Buy then rep.lastQty else -rep.lastQty)
  {
    hide EquityOf, TlToMoney, FeeInQuote, Filled;
    var i := InstOf(a, r.instrument);
    var value := Notional(i, rep.lastPx, rep.lastQty);
    FillIsCashExact(i.pos.(fees := i.pos.fees + FeeInQuote(i, value, rep.lastQty, rep.fee, rep.feeInBase)),
                    Fill(r.side, rep.lastPx, rep.lastQty));
  }

  lemma KeepsPosition(a: Acct, b: Acct, inst: nat)
    requires b.insts == a.insts && b.slotOf == a.slotOf
    ensures Trades(a, inst) <==> Trades(b, inst)
    ensures Trades(a, inst) ==> InstOf(b, inst) == InstOf(a, inst)
  {
  }

  // Requests.

  /** Lots that a request, if it reaches the venue, adds to what a side may still fill. */
  function Adds(c: Config, e: Engine, a: Action, inst: nat, side: Side): nat
    requires Ok(e)
  {
    match a
    case SubmitA(q, v, routed) =>
      if SubmitVerdict(c, e, q, v) == NoReject && routed && q.instrument == inst && q.side == side
      then Max(0, q.qty) else 0
    case ReplaceA(id, px, qty, v, routed) =>
      if ReplaceAsked(c, e, id, px, qty, v) && routed then
        var r := e.rows[FindRow(e.rows, id).value];
        if r.instrument == inst && r.side == side then Max(0, qty - r.cum - r.leaves) else 0
      else 0
    case _ => 0
  }

  /** The potential on both sides of the instrument, with what the request adds, fits the limit. */
  ghost predicate Roomy(c: Config, e: Engine, a: Action, inst: nat, max: int)
    requires Ok(e)
  {
    Trades(e.acct, inst) ==>
      && Pos(e, inst) + SumRows(e.rows, PotentialOf(inst, Buy)) + Adds(c, e, a, inst, Buy) <= max
      && Pos(e, inst) - SumRows(e.rows, PotentialOf(inst, Sell)) - Adds(c, e, a, inst, Sell) >= -max
  }

  lemma SubmitExact(c: Config, e: Engine, q: Request, v: Env, routed: bool, inst: nat, max: int)
    requires Ok(e) && IdsIssued(e) && e.counter + 1 < COUNTER_IDS
    ensures Limited(Submit(c, e, q, v, routed), inst, max) <==> Roomy(c, e, SubmitA(q, v, routed), inst, max)
  {
    hide SumRows, CheckNew, NextId;
    if SubmitVerdict(c, e, q, v) == NoReject {
      InsertSucceeds(c, e, q, v);
      VerdictMeans(c, e, q, v);
      var row := NewRow(q, NextId(e.gen, e.counter), v);
      SumAppend(e.rows, row, PotentialOf(inst, Buy));
      SumAppend(e.rows, row, PotentialOf(inst, Sell));
      KeepsPosition(e.acct, Reserve(e.acct, q.instrument, q.side, row.px, q.qty), inst);
    }
  }

  lemma ReplaceExact(c: Config, e: Engine, id: nat, px: int, qty: int, v: Env, routed: bool, inst: nat, max: int)
    requires Ok(e)
    ensures Limited(Replace(c, e, id, px, qty, v, routed), inst, max)
            <==> Roomy(c, e, ReplaceA(id, px, qty, v, routed), inst, max)
  {
    hide SumRows, CheckReplace, FindRow, WellFormed;
    if ReplaceAsked(c, e, id, px, qty, v) && routed {
      var i := FindRow(e.rows, id).value;
      var n := e.rows[i].(pendingReplace := true, newPx := px, newQty := qty);
      SumUpdate(e.rows, i, n, PotentialOf(inst, Buy));
      SumUpdate(e.rows, i, n, PotentialOf(inst, Sell));
    }
  }

  lemma TouchLimited(e: Engine, i: nat, r: OrderRow, a: Acct, st: Stats, inst: nat, max: int)
    requires i < |e.rows| && r.instrument == e.rows[i].instrument && r.side == e.rows[i].side
    requires PotentialOf(r.instrument, r.side)(r) <= PotentialOf(r.instrument, r.side)(e.rows[i])
    requires a.insts == e.acct.insts && a.slotOf == e.acct.slotOf && Limited(e, inst, max)
    ensures Limited(e.(rows := e.rows[i := r], acct := a, st := st), inst, max)
  {
    hide SumRows, Growing;
    SumUpdate(e.rows, i, r, PotentialOf(inst, Buy));
    SumUpdate(e.rows, i, r, PotentialOf(inst, Sell));
    KeepsPosition(e.acct, a, inst);
  }

  lemma FinishLimited(e: Engine, i: nat, st: Stats, inst: nat, max: int)
    requires Ok(e) && RowsSane(e) && i < |e.rows| && Limited(e, inst, max)
    ensures Limited(Finish(e, i).(st := st), inst, max)
  {
    hide SumRows;
    var r := e.rows[i];
    SumSwapRemove(e.rows, i, PotentialOf(inst, Buy));
    SumSwapRemove(e.rows, i, PotentialOf(inst, Sell));
    KeepsPosition(e.acct, Release(e.acct, r.instrument, r.side, r.px, r.leaves), inst);
  }

  /** A fill moves lots from the side's potential into the position, one for one. */
  lemma FillLimited(e: Engine, i: nat, rep: Report, inst: nat, max: int)
    requires Ok(e) && RowsSane(e) && DistinctSlots(e.acct) && i < |e.rows| && 0 <= rep.lastQty <= e.rows[i].leaves
    requires Limited(e, inst, max)
    ensures Limited(ApplyFill(e, i, rep), inst, max)
  {
    hide SumRows, OnFill, WellFormed, SameShape, Release;
    var r, n := e.rows[i], FilledRow(e.rows[i], rep);
    var a := OnFill(e.acct, r.instrument, r.side, rep.lastPx, rep.lastQty, r.px, rep.fee, rep.feeInBase);
    var f := e.(acct := a, rows := e.rows[i := n], st := e.st.(fills := e.st.fills + 1));
    SumUpdate(e.rows, i, n, PotentialOf(inst, Buy));
    SumUpdate(e.rows, i, n, PotentialOf(inst, Sell));
    BalancesSame(e.acct, a);
    TradesBack(e.acct, a, inst);
    if Trades(e.acct, inst) {
      FillMovesPosition(e.acct, r, rep, inst);
    }
    assert Limited(f, inst, max);
    if n.leaves == 0 {
      OkAfterFill(e, i, rep);
      FinishLimited(f, i, f.st, inst, max);
    }
  }

  lemma TradesBack(a: Acct, b: Acct, inst: nat)
    requires SameShape(a, b)
    ensures Trades(a, inst) <==> Trades(b, inst)
  {
  }

  lemma ReportLimited(e: Engine, rep: Report, now: int, inst: nat, max: int)
    requires Ok(e) && RowsSane(e) && DistinctSlots(e.acct) && Legal(e, ReportA(rep, now)) && Limited(e, inst, max)
    ensures Limited(ApplyReport(e, rep, now), inst, max)
  {
    hide Limited, WellFormed, FindRow;
    var p := FindRow(e.rows, rep.id);
    StatsLimited(e, inst, max);
    if p.Some? {
      var i, r := p.value, e.rows[p.value];
      match rep.kind {
        case Acked =>
          TouchLimited(e, i, r.(status := New, tAck := now), e.acct, e.st.(acks := e.st.acks + 1), inst, max);
        case PartialFill => FillLimited(e, i, rep, inst, max);
        case FullFill => FillLimited(e, i, rep, inst, max);
        case Replaced =>
          TouchLimited(e, i, ReplacedRow(r), ApplyReplaced(e, i).acct, e.st.(replaced := e.st.replaced + 1), inst, max);
        case Canceled => FinishLimited(e, i, e.st.(canceled := e.st.canceled + 1), inst, max);
        case Expired => FinishLimited(e, i, e.st.(expired := e.st.expired + 1), inst, max);
        case Rejected => FinishLimited(e, i, e.st.(venueRejects := e.st.venueRejects + 1), inst, max);
        case CancelRejected =>
          TouchLimited(e, i, r.(pendingCancel := false, pendingReplace := false), e.acct, e.st, inst, max);
        case Restated =>
      }
    }
  }

  lemma StatsLimited(e: Engine, inst: nat, max: int)
    ensures forall st :: Limited(e, inst, max) ==> Limited(e.(st := st), inst, max)
  {
    hide SumRows;
  }

  /** A step keeps the potential inside the limit just when it leaves room: every step but a request does. */
  lemma StepExact(c: Config, e: Engine, a: Action, inst: nat, max: int)
    requires Ok(e) && IdsIssued(e) && RowsSane(e) && DistinctSlots(e.acct) && Legal(e, a) && Limited(e, inst, max)
    ensures Limited(Step(c, e, a), inst, max) <==> Roomy(c, e, a, inst, max)
  {
    hide WellFormed, FindRow, Submit, Replace, ApplyReport, SumRows, SubmitVerdict, CheckReplace;
    match a {
      case SubmitA(q, v, routed) => SubmitExact(c, e, q, v, routed, inst, max);
      case ReplaceA(id, px, qty, v, routed) => ReplaceExact(c, e, id, px, qty, v, routed, inst, max);
      case CancelA(id, routed) => CancelLimited(e, id, routed, inst, max);
      case ReportA(rep, now) => ReportLimited(e, rep, now, inst, max);
      case MarkA(i, bid, ask) => MarkLimited(e, i, bid, ask, inst, max);
    }
  }

  lemma CancelLimited(e: Engine, id: nat, routed: bool, inst: nat, max: int)
    requires Limited(e, inst, max)
    ensures Limited(Cancel(e, id, routed), inst, max)
  {
    hide Limited, FindRow;
    var p := FindRow(e.rows, id);
    StatsLimited(e, inst, max);
    if p.Some? {
      TouchLimited(e, p.value, e.rows[p.value].(pendingCancel := true), e.acct,
                   e.st.(ordersCancel := e.st.ordersCancel + 1), inst, max);
    }
  }

  lemma MarkLimited(e: Engine, i: nat, bid: int, ask: int, inst: nat, max: int)
    requires WellFormed(e.acct) && Limited(e, inst, max)
    ensures Limited(e.(acct := Marked(e.acct, i, bid, ask)), inst, max)
  {
    hide SumRows, EquityOf;
    TradesBack(e.acct, Marked(e.acct, i, bid, ask), inst);
  }

  // What the venue may still do.

  /** The limit holds for the open lots as they are. */
  ghost predicate Within(e: Engine, inst: nat, max: int) {
    Trades(e.acct, inst) ==>
      && Pos(e, inst) + SumRows(e.rows, LotsOf(inst, Buy)) <= max
      && Pos(e, inst) - SumRows(e.rows, LotsOf(inst, Sell)) >= -max
  }

  /** However the venue answers from here on, position and open lots stay inside the limit. */
  ghost predicate Safe(c: Config, e: Engine, inst: nat, max: int)
    requires Ok(e)
  {
    forall actions :: ReportsOnly(actions) && LegalRun(c, e, actions) ==> Within(Run(c, e, actions), inst, max)
  }

  lemma LimitedIsWithin(e: Engine, inst: nat, max: int)
    requires Limited(e, inst, max)
    ensures Within(e, inst, max)
  {
    OpenAtMostPotential(e.rows, inst, Buy);
    OpenAtMostPotential(e.rows, inst, Sell);
  }

  lemma {:induction false} ReportsKeepLimited(c: Config, e: Engine, actions: seq<Action>, inst: nat, max: int)
    requires Ok(e) && IdsIssued(e) && RowsSane(e) && DistinctSlots(e.acct) && Limited(e, inst, max)
    requires ReportsOnly(actions) && LegalRun(c, e, actions)
    ensures Limited(Run(c, e, actions), inst, max)
  {
    hide Limited, Legal, RowsSane, IdsIssued, Ok, SameShape, WellFormed, LegalRun, ApplyReport;
    if actions != [] {
      LegalFront(c, e, actions);
      var front, a := actions[..|actions| - 1], actions[|actions| - 1];
      ReportsKeepLimited(c, e, front, inst, max);
      RunKeeps(c, e, front);
      var b := Run(c, e, front);
      SlotsKept(e.acct, b.acct);
      ReportLimited(b, a.rep, a.now, inst, max);
    }
  }

  /** The answer to a growing replace turns its potential into open lots. */
  lemma AnswerGrows(e: Engine, i: nat, inst: nat, side: Side)
    requires Ok(e) && i < |e.rows| && Growing(e.rows[i]) && e.rows[i].instrument == inst && e.rows[i].side == side
    ensures var f, r := ApplyReplaced(e, i), e.rows[i];
            && SumRows(f.rows, PotentialOf(inst, side)) == SumRows(e.rows, PotentialOf(inst, side))
            && SumRows(f.rows, LotsOf(inst, side)) == SumRows(e.rows, LotsOf(inst, side)) + r.newQty - r.cum - r.leaves
            && (Trades(e.acct, inst) <==> Trades(f.acct, inst))
            && (Trades(e.acct, inst) ==> Pos(f, inst) == Pos(e, inst))
  {
    hide SumRows, WellFormed, Reservation;
    var n := ReplacedRow(e.rows[i]);
    SumUpdate(e.rows, i, n, PotentialOf(inst, side));
    SumUpdate(e.rows, i, n, LotsOf(inst, side));
    KeepsPosition(e.acct, ApplyReplaced(e, i).acct, inst);
  }

  /** The venue can answer every growing replace of a side: its open lots reach the potential. */
  lemma {:induction false} AnswersReach(c: Config, e: Engine, done: seq<Action>, inst: nat, side: Side)
    returns (actions: seq<Action>)
    requires Ok(e) && IdsIssued(e) && RowsSane(e) && ReportsOnly(done) && LegalRun(c, e, done)
    ensures ReportsOnly(actions) && LegalRun(c, e, actions)
    ensures var f, g := Run(c, e, done), Run(c, e, actions);
            && SumRows(g.rows, LotsOf(inst, side)) == SumRows(f.rows, PotentialOf(inst, side))
            && (Trades(f.acct, inst) <==> Trades(g.acct, inst))
            && (Trades(f.acct, inst) ==> Pos(g, inst) == Pos(f, inst))
    decreases SumRows(Run(c, e, done).rows, PotentialOf(inst, side)) - SumRows(Run(c, e, done).rows, LotsOf(inst, side))
  {
    hide Step, Legal, IdsIssued, SumRows, WellFormed, LegalRun, Run, ApplyReplaced, Ok;
    var f := Run(c, e, done);
    RunKeeps(c, e, done);
    OpenAtMostPotential(f.rows, inst, side);
    if NoneGrowing(f.rows, inst, side) {
      actions := done;
    } else {
      var i: nat :| i < |f.rows| && f.rows[i].instrument == inst && f.rows[i].side == side && Growing(f.rows[i]);
      AnswerStep(c, f, i);
      RunExtends(c, e, done, AnswerTo(f.rows[i]));
      AnswerGrows(f, i, inst, side);
      var more := done + [AnswerTo(f.rows[i])];
      OpenAtMostPotential(Run(c, e, more).rows, inst, side);
      actions := AnswersReach(c, e, more, inst, side);
    }
  }

  /** No behaviour of the venue breaks the limit if and only if the potential fits it. */
  lemma SafeIsLimited(c: Config, e: Engine, inst: nat, max: int)
    requires Ok(e) && IdsIssued(e) && RowsSane(e) && DistinctSlots(e.acct)
    ensures Safe(c, e, inst, max) <==> Limited(e, inst, max)
  {
    hide Step, Legal, IdsIssued, RowsSane, SumRows, WellFormed, LegalRun, Ok, DistinctSlots;
    if Limited(e, inst, max) {
      forall actions | ReportsOnly(actions) && LegalRun(c, e, actions)
        ensures Within(Run(c, e, actions), inst, max)
      {
        ReportsKeepLimited(c, e, actions, inst, max);
        LimitedIsWithin(Run(c, e, actions), inst, max);
      }
    } else {
      NoActions(c, e);
      var buys := AnswersReach(c, e, [], inst, Buy);
      var sells := AnswersReach(c, e, [], inst, Sell);
      assert !Within(Run(c, e, buys), inst, max) || !Within(Run(c, e, sells), inst, max);
    }
  }

  lemma NoActions(c: Config, e: Engine)
    requires Ok(e)
    ensures ReportsOnly([]) && LegalRun(c, e, []) && Run(c, e, []) == e
  {
  }

  /** A request keeps every later behaviour of the venue inside the limit if and only if it leaves room. */
  lemma RequestIsSafe(c: Config, e: Engine, a: Action, inst: nat, max: int)
    requires Ok(e) && IdsIssued(e) && RowsSane(e) && DistinctSlots(e.acct) && Legal(e, a) && Safe(c, e, inst, max)
    ensures Ok(Step(c, e, a)) && (Safe(c, Step(c, e, a), inst, max) <==> Roomy(c, e, a, inst, max))
  {
    hide Step, Legal, IdsIssued, RowsSane, Safe, Limited, Roomy, Ok;
    SafeIsLimited(c, e, inst, max);
    StepExact(c, e, a, inst, max);
    StepKeepsOk(c, e, a);
    LegalSubmits(e, a);
    StepKeepsIds(c, e, a);
    StepKeepsSane(c, e, a);
    SlotsKept(e.acct, Step(c, e, a).acct);
    SafeIsLimited(c, Step(c, e, a), inst, max);
  }

  // Runs.

  /** Every request of the run leaves room in the state it finds. */
  ghost predicate RoomyRun(c: Config, e: Engine, actions: seq<Action>, inst: nat, max: int)
    requires Ok(e)
  {
    forall k {:trigger actions[k]} :: 0 <= k < |actions| ==> Roomy(c, Run(c, e, actions[..k]), actions[k], inst, max)
  }

  ghost predicate AlwaysSafe(c: Config, e: Engine, actions: seq<Action>, inst: nat, max: int)
    requires Ok(e)
  {
    forall k :: 0 <= k <= |actions| ==> Safe(c, Run(c, e, actions[..k]), inst, max)
  }

  /**
   From any safe state - flat with no orders is one - a legal run is safe throughout if and only
   if each of its requests leaves room.
   */
  lemma {:induction false} RunIsSafe(c: Config, e: Engine, actions: seq<Action>, inst: nat, max: int)
    requires Ok(e) && IdsIssued(e) && RowsSane(e) && DistinctSlots(e.acct) && LegalRun(c, e, actions)
    requires Safe(c, e, inst, max)
    ensures AlwaysSafe(c, e, actions, inst, max) <==> RoomyRun(c, e, actions, inst, max)
  {
    hide Step, Legal, IdsIssued, RowsSane, Safe, Roomy, Ok, LegalRun, Run, RoomyRun, AlwaysSafe, SameShape;
    RoomyLast(c, e, actions, inst, max);
    SafeLast(c, e, actions, inst, max);
    if actions == [] {
      NoActions(c, e);
    } else {
      LegalFront(c, e, actions);
      var n := |actions| - 1;
      RunIsSafe(c, e, actions[..n], inst, max);
      RunKeeps(c, e, actions[..n]);
      RunLast(c, e, actions);
      var b := Run(c, e, actions[..n]);
      SlotsKept(e.acct, b.acct);
      SafeLast(c, e, actions[..n], inst, max);
      if Safe(c, b, inst, max) {
        RequestIsSafe(c, b, actions[n], inst, max);
      }
    }
  }

  lemma RoomyLast(c: Config, e: Engine, actions: seq<Action>, inst: nat, max: int)
    requires Ok(e)
    ensures actions == [] ==> RoomyRun(c, e, actions, inst, max)
    ensures actions != [] ==>
              var n := |actions| - 1;
              RoomyRun(c, e, actions, inst, max) <==>
              RoomyRun(c, e, actions[..n], inst, max) && Roomy(c, Run(c, e, actions[..n]), actions[n], inst, max)
  {
    hide Run, Roomy, Ok;
    if actions != [] {
      var n := |actions| - 1;
      assert forall j :: 0 <= j < n ==> actions[..n][j] == actions[j] && actions[..n][..j] == actions[..j];
    }
  }

  lemma SafeLast(c: Config, e: Engine, actions: seq<Action>, inst: nat, max: int)
    requires Ok(e)
    ensures AlwaysSafe(c, e, actions, inst, max) ==> Safe(c, Run(c, e, actions), inst, max)
    ensures actions == [] ==> (AlwaysSafe(c, e, actions, inst, max) <==> Safe(c, Run(c, e, []), inst, max))
    ensures actions != [] ==>
              (AlwaysSafe(c, e, actions, inst, max) <==>
               AlwaysSafe(c, e, actions[..|actions| - 1], inst, max) && Safe(c, Run(c, e, actions), inst, max))
  {
    hide Safe, Ok, Run;
    assert actions[..|actions|] == actions;
    if actions != [] {
      var front := actions[..|actions| - 1];
      assert forall j :: 0 <= j <= |front| ==> front[..j] == actions[..j];
    }
  }

  /** The gate's check leaves room when no growing replace is in flight on the request's side. */
  lemma CalmIsRoomy(c: Config, e: Engine, a: Action, inst: nat)
    requires Ok(e) && IdsIssued(e) && RowsSane(e) && Calm(e, a) && c.lim.maxPosition > 0
    requires Limited(e, inst, c.lim.maxPosition)
    ensures Roomy(c, e, a, inst, c.lim.maxPosition)
  {
    hide SumRows, CheckNew, CheckReplace, PositionCheck, FindRow, WellFormed;
    match a {
      case SubmitA(q, v, routed) =>
        if SubmitVerdict(c, e, q, v) == NoReject {
          SubmitVerdictPosition(c, e, q, v);
          PositionVerdict(c, e, q.instrument, q.side, q.qty, RefPx(q.px, v.mid2));
          OpenAtMostPotential(e.rows, q.instrument, q.side);
        }
      case ReplaceA(id, px, qty, v, routed) =>
        if ReplaceAsked(c, e, id, px, qty, v) {
          var r := e.rows[FindRow(e.rows, id).value];
          if qty - r.cum > r.leaves {
            ReplaceVerdictPosition(c, e, r, px, qty, v);
            PositionVerdict(c, e, r.instrument, r.side, qty - r.cum - r.leaves, px);
            OpenAtMostPotential(e.rows, r.instrument, r.side);
          }
        }
      case _ =>
    }
  }

  /**
   The gate alone: every legal and calm run keeps position plus open buys at most max_position
   and position less open sells at least its negative.
   */
  lemma {:induction false} PositionStaysLimited(c: Config, e: Engine, actions: seq<Action>, inst: nat)
    requires Ok(e) && IdsIssued(e) && RowsSane(e) && DistinctSlots(e.acct) && Trades(e.acct, inst)
    requires LegalRun(c, e, actions) && CalmRun(c, e, actions)
    requires c.lim.maxPosition > 0 && Limited(e, inst, c.lim.maxPosition)
    ensures var r := Run(c, e, actions);
            && IdsIssued(r) && RowsSane(r) && SameShape(e.acct, r.acct) && Limited(r, inst, c.lim.maxPosition)
            && Trades(r.acct, inst)
            && Pos(r, inst) + SumRows(r.rows, LotsOf(inst, Buy)) <= c.lim.maxPosition
            && Pos(r, inst) - SumRows(r.rows, LotsOf(inst, Sell)) >= -c.lim.maxPosition
  {
    hide Step, Legal, RowsSane, IdsIssued, Ok, SameShape, WellFormed, SumRows, Calm, LegalRun, Roomy, Limited;
    RunKeeps(c, e, actions);
    if actions != [] {
      LegalFront(c, e, actions);
      var n := |actions| - 1;
      var front, a := actions[..n], actions[n];
      assert forall j :: 0 <= j < n ==> front[..j] == actions[..j] && front[j] == actions[j];
      PositionStaysLimited(c, e, front, inst);
      var b := Run(c, e, front);
      SlotsKept(e.acct, b.acct);
      CalmIsRoomy(c, b, a, inst);
      StepExact(c, b, a, inst, c.lim.maxPosition);
    }
    TradesBack(e.acct, Run(c, e, actions).acct, inst);
    LimitedIsWithin(Run(c, e, actions), inst, c.lim.maxPosition);
  }

  lemma SlotsKept(a: Acct, b: Acct)
    requires SameShape(a, b) && DistinctSlots(a)
    ensures DistinctSlots(b)
  {
  }

  // Why the run must be calm.

  const CROWDED_CONFIG: Config :=
    Config(RiskLimits(0, 0, 3, 0, 0, false, 0.0), {0}, _ => InstrumentRow(0, 0, Online), false, 0)

  function CrowdedRow(id: nat, qty: int, pending: bool): OrderRow {
    OrderRow(id, 1, qty, qty, 0, if pending || qty > 1 then 1 else 0, if pending || qty > 1 then 2 else 0,
             0, Buy, GTC, Limit, New, false, pending, 0, 0)
  }

  /** Flat, with two one-lot buys. */
  function Crowded(rows: seq<OrderRow>, bal: seq<Balance>, st: Stats): Engine {
    Engine(rows, 10, 0, 2, Acct(map[0 := 0], [Inst(0, 1, 1, 0, 1, FLAT)], bal, 0, 0), st)
  }

  function CrowdedStart(): Engine {
    Crowded([CrowdedRow(1, 1, false), CrowdedRow(2, 1, false)], [Balance(0, 0), Balance(0, 2)], NO_STATS)
  }

  function CrowdedActions(): (actions: seq<Action>)
    ensures |actions| == 4
  {
    var v := Env(false, false, 2, true, 0);
    [ReplaceA(1, 1, 2, v, true), ReplaceA(2, 1, 2, v, true),
     ReportA(Report(1, Replaced, 0, 0, 0, false), 0), ReportA(Report(2, Replaced, 0, 0, 0, false), 0)]
  }

  lemma RunTakes(c: Config, e: Engine, actions: seq<Action>, k: nat)
    requires Ok(e) && k < |actions|
    ensures Run(c, e, actions[..k + 1]) == Step(c, Run(c, e, actions[..k]), actions[k])
  {
    hide Step;
    assert actions[..k + 1][..k] == actions[..k];
  }

  lemma CrowdedSums(x: OrderRow, y: OrderRow, w: OrderRow -> int)
    ensures SumRows([x, y], w) == w(x) + w(y)
  {
    SumAppend([x], y, w);
    SumAppend([], x, w);
    assert [x] + [y] == [x, y] && [] + [x] == [x];
  }

  lemma CrowdedFinds(x: OrderRow, y: OrderRow)
    requires x.id == 1 && y.id == 2
    ensures FindRow([x, y], 1) == Some(0) && FindRow([x, y], 2) == Some(1)
  {
    assert [x, y][..1] == [x];
  }

  /** The engine after the first k actions. */
  function CrowdedAfter(k: nat): Engine {
    var x, y := CrowdedRow(1, 1, false), CrowdedRow(2, 1, false);
    var a, b := CrowdedRow(1, 1, true), CrowdedRow(2, 1, true);
    if k == 0 then CrowdedStart()
    else if k == 1 then Crowded([a, y], [Balance(0, 0), Balance(0, 2)], NO_STATS.(ordersReplace := 1))
    else if k == 2 then Crowded([a, b], [Balance(0, 0), Balance(0, 2)], NO_STATS.(ordersReplace := 2))
    else if k == 3 then
      Crowded([CrowdedRow(1, 2, false), b], [Balance(0, 0), Balance(0, 3)],
              NO_STATS.(ordersReplace := 2, replaced := 1))
    else Crowded([CrowdedRow(1, 2, false), CrowdedRow(2, 2, false)],
                 [Balance(0, 0), Balance(0, 4)], NO_STATS.(ordersReplace := 2, replaced := 2))
  }

  ghost predicate CrowdedTakes(k: nat)
    requires k < 4
  {
    var e, a := CrowdedAfter(k), CrowdedActions()[k];
    Ok(e) && Legal(e, a) && Step(CROWDED_CONFIG, e, a) == CrowdedAfter(k + 1)
  }

  /** The first replace passes the gate, and so does the second: the first's growth is not yet in the sums. */
  lemma CrowdedFirstReplace()
    ensures CrowdedTakes(0)
  {
    hide SumRows, FindRow;
    var x, y := CrowdedRow(1, 1, false), CrowdedRow(2, 1, false);
    CrowdedFinds(x, y);
    CrowdedSums(x, y, LotsOf(0, Buy));
    assert [x, y][0 := CrowdedRow(1, 1, true)] == [CrowdedRow(1, 1, true), y];
  }

  lemma CrowdedSecondReplace()
    ensures CrowdedTakes(1)
  {
    hide SumRows, FindRow;
    var a, y := CrowdedRow(1, 1, true), CrowdedRow(2, 1, false);
    CrowdedFinds(a, y);
    CrowdedSums(a, y, LotsOf(0, Buy));
    assert [a, y][1 := CrowdedRow(2, 1, true)] == [a, CrowdedRow(2, 1, true)];
  }

  lemma CrowdedFirstAnswer()
    ensures CrowdedTakes(2)
  {
    hide FindRow, TlToMoney, ApplyFill, Finish, Submit, Replace, Cancel, Marked;
    var a, b := CrowdedRow(1, 1, true), CrowdedRow(2, 1, true);
    CrowdedFinds(a, b);
    assert [a, b][0 := CrowdedRow(1, 2, false)] == [CrowdedRow(1, 2, false), b];
    assert [Balance(0, 0), Balance(0, 2)][1 := Balance(0, 1)][1 := Balance(0, 3)] == [Balance(0, 0), Balance(0, 3)];
    CrowdedLocks();
  }

  lemma CrowdedSecondAnswer()
    ensures CrowdedTakes(3)
  {
    hide FindRow, TlToMoney, ApplyFill, Finish, Submit, Replace, Cancel, Marked;
    var x, b := CrowdedRow(1, 2, false), CrowdedRow(2, 1, true);
    CrowdedFinds(x, b);
    assert [x, b][1 := CrowdedRow(2, 2, false)] == [x, CrowdedRow(2, 2, false)];
    assert [Balance(0, 0), Balance(0, 3)][1 := Balance(0, 2)][1 := Balance(0, 4)] == [Balance(0, 0), Balance(0, 4)];
    CrowdedLocks();
  }

  lemma CrowdedLocks()
    ensures var i := Inst(0, 1, 1, 0, 1, FLAT); TlToMoney(i, 1) == 1 && TlToMoney(i, 2) == 2
  {
  }

  lemma CrowdedStartsWell()
    ensures var e := CrowdedStart();
            && Ok(e) && IdsIssued(e) && RowsSane(e) && DistinctSlots(e.acct) && Trades(e.acct, 0)
            && Limited(e, 0, CROWDED_CONFIG.lim.maxPosition) && e == CrowdedAfter(0)
  {
    hide SumRows;
    var x, y := CrowdedRow(1, 1, false), CrowdedRow(2, 1, false);
    CrowdedSums(x, y, PotentialOf(0, Buy));
    CrowdedSums(x, y, PotentialOf(0, Sell));
  }

  lemma {:induction false} CrowdedRuns(k: nat)
    requires k <= 4
    ensures Ok(CrowdedStart()) && Run(CROWDED_CONFIG, CrowdedStart(), CrowdedActions()[..k]) == CrowdedAfter(k)
    ensures k < 4 ==> Legal(CrowdedAfter(k), CrowdedActions()[k])
  {
    hide Step, CrowdedAfter, CrowdedActions, Crowded, Legal, Ok;
    CrowdedStartsWell();
    CrowdedFirstReplace();
    CrowdedSecondReplace();
    CrowdedFirstAnswer();
    CrowdedSecondAnswer();
    if k > 0 {
      CrowdedRuns(k - 1);
      RunTakes(CROWDED_CONFIG, CrowdedStart(), CrowdedActions(), k - 1);
    }
  }

  /**
   Two replaces checked one after the other, each fine on its own leaves: both are legal, and
   once the venue answers them the open buys stand at 4 against a limit of 3.
   */
  lemma CrowdedBreaksTheLimit()
    ensures var c, e, actions := CROWDED_CONFIG, CrowdedStart(), CrowdedActions();
            && Ok(e) && IdsIssued(e) && RowsSane(e) && DistinctSlots(e.acct) && Trades(e.acct, 0)
            && Limited(e, 0, c.lim.maxPosition) && LegalRun(c, e, actions)
            && var r := Run(c, e, actions);
               Trades(r.acct, 0) && Pos(r, 0) + SumRows(r.rows, LotsOf(0, Buy)) == c.lim.maxPosition + 1
  {
    hide SumRows, Step, Legal, Limited, Ok, IdsIssued, RowsSane, DistinctSlots, Run;
    CrowdedStartsWell();
    forall k: nat | k <= 4
      ensures Run(CROWDED_CONFIG, CrowdedStart(), CrowdedActions()[..k]) == CrowdedAfter(k)
      ensures k < 4 ==> Legal(CrowdedAfter(k), CrowdedActions()[k])
    {
      CrowdedRuns(k);
    }
    assert CrowdedActions()[..4] == CrowdedActions();
    CrowdedSums(CrowdedRow(1, 2, false), CrowdedRow(2, 2, false), LotsOf(0, Buy));
  }
}
