/** Reservations against the live orders: exact but for the rounding of split quote amounts. */
module Reservations {
  import opened Common
  import opened OrderTypes
  import opened Positions
  import opened AccountModule
  import opened Engine
  import opened LegalRuns

  /** What a live row locks of asset k. */
  function LockOf(a: Acct, k: nat): OrderRow -> int {
    (r: OrderRow) =>
      if Trades(a, r.instrument) && SideAsset(InstOf(a, r.instrument), r.side) == k
      then Reservation(InstOf(a, r.instrument), r.side, r.px, r.leaves) else 0
  }

  /** Reserved beyond what the live rows lock. */
  function Drift(e: Engine, k: nat): int
    requires k < |e.acct.bal|
  {
    e.acct.bal[k].reserved - SumRows(e.rows, LockOf(e.acct, k))
  }

  /** Asset k is locked without rounding: only as a base, or as a quote whose conversion does not divide. */
  predicate Unrounded(a: Acct, k: nat) {
    forall i :: 0 <= i < |a.insts| ==> a.insts[i].quote == k ==> a.insts[i].tlExp >= 0
  }

  // Rounding.

  /** What truncation loses when a sum is divided in two parts: a unit just when the remainders carry. */
  lemma SplitRounds(x: nat, y: nat, d: nat)
    requires d > 0
    ensures TruncDiv(x + y, d) - TruncDiv(x, d) - TruncDiv(y, d) == if x % d + y % d >= d then 1 else 0
  {
    var p, q := TruncDiv(x, d), TruncDiv(y, d);
    DivisionParts(x, d, p);
    DivisionParts(y, d, q);
    var carry := if x % d + y % d >= d then 1 else 0;
    assert (p + q + carry) * d == p * d + q * d + carry * d;
    QuotientUnique(x + y, d, TruncDiv(x + y, d), p + q + carry);
  }

  lemma DivisionParts(x: nat, d: nat, p: int)
    requires d > 0 && p * d <= x < p * d + d
    ensures x == p * d + x % d
  {
    assert x == d * (x / d) + x % d;
    QuotientUnique(x, d, p, x / d);
  }

  lemma QuotientUnique(x: int, d: nat, p: int, q: int)
    requires d > 0 && p * d <= x < p * d + d && q * d <= x < q * d + d
    ensures p == q
  {
    DivideOut(p, q, d);
    DivideOut(q, p, d);
  }

  /** The unit that splitting x + y tick-lots in two conversions leaves over. */
  function Carry(i: Inst, x: nat, y: nat): nat {
    if i.tlExp >= 0 then 0
    else
      var d := Pow10(-i.tlExp);
      if x * i.tlMul % d + y * i.tlMul % d >= d then 1 else 0
  }

  lemma MoneySplits(i: Inst, x: nat, y: nat)
    ensures TlToMoney(i, x + y) == TlToMoney(i, x) + TlToMoney(i, y) + Carry(i, x, y)
  {
    assert (x + y) * i.tlMul == x * i.tlMul + y * i.tlMul;
    if i.tlExp >= 0 {
      var p := Pow10(i.tlExp);
      assert (x * i.tlMul + y * i.tlMul) * p == x * i.tlMul * p + y * i.tlMul * p;
    } else {
      SplitRounds(x * i.tlMul, y * i.tlMul, Pow10(-i.tlExp));
    }
  }

  /** Left reserved by filling q of an order's lots: its lock was one conversion, now it is two. */
  function Stranded(i: Inst, side: Side, px: nat, leaves: nat, q: nat): nat
    requires q <= leaves
  {
    if side == Buy then Carry(i, px * q, px * (leaves - q)) else 0
  }

  /** What an order locks is what a part of it and the rest lock, and what the split strands. */
  lemma ReservationSplits(i: Inst, side: Side, px: nat, leaves: nat, q: nat)
    requires q <= leaves
    ensures Reservation(i, side, px, leaves)
            == Reservation(i, side, px, q) + Reservation(i, side, px, leaves - q) + Stranded(i, side, px, leaves, q)
  {
    hide TlToMoney, Carry;
    if side == Buy {
      assert px * leaves == px * q + px * (leaves - q);
      assert px * q >= 0 && px * (leaves - q) >= 0;
      MoneySplits(i, px * q, px * (leaves - q));
    } else {
      assert leaves * i.basePerLot == q * i.basePerLot + (leaves - q) * i.basePerLot;
    }
  }

  // Sums under a changed account.

  lemma {:induction false} SumSame(rows: seq<OrderRow>, w: OrderRow -> int, x: OrderRow -> int)
    requires forall i :: 0 <= i < |rows| ==> w(rows[i]) == x(rows[i])
    ensures SumRows(rows, w) == SumRows(rows, x)
  {
    if rows != [] {
      SumSame(rows[..|rows| - 1], w, x);
    }
  }

  lemma LockSame(a: Acct, b: Acct, k: nat, r: OrderRow)
    requires SameShape(a, b)
    ensures LockOf(a, k)(r) == LockOf(b, k)(r)
  {
    if Trades(a, r.instrument) {
      var i, j := InstOf(a, r.instrument), InstOf(b, r.instrument);
      assert j.(pos := i.pos) == i;
      assert Reservation(i, r.side, r.px, r.leaves) == Reservation(j, r.side, r.px, r.leaves);
    }
  }

  lemma LocksSame(a: Acct, b: Acct, k: nat, rows: seq<OrderRow>)
    requires SameShape(a, b)
    ensures SumRows(rows, LockOf(a, k)) == SumRows(rows, LockOf(b, k))
  {
    hide LockOf, SameShape;
    forall i | 0 <= i < |rows|
      ensures LockOf(a, k)(rows[i]) == LockOf(b, k)(rows[i])
    {
      LockSame(a, b, k, rows[i]);
    }
    SumSame(rows, LockOf(a, k), LockOf(b, k));
  }

  lemma UnroundedSame(a: Acct, b: Acct, k: nat)
    requires SameShape(a, b)
    ensures Unrounded(a, k) <==> Unrounded(b, k)
  {
    forall i | 0 <= i < |a.insts|
      ensures b.insts[i].quote == a.insts[i].quote && b.insts[i].tlExp == a.insts[i].tlExp
    {
      assert b.insts[i].(pos := a.insts[i].pos) == a.insts[i];
    }
  }

  /** Reserve and release move an asset's reserved money by the row's lock. */
  lemma ReserveMoves(a: Acct, r: OrderRow, k: nat)
    requires WellFormed(a) && Trades(a, r.instrument) && k < |a.bal|
    ensures Reserve(a, r.instrument, r.side, r.px, r.leaves).bal[k].reserved == a.bal[k].reserved + LockOf(a, k)(r)
    ensures Release(a, r.instrument, r.side, r.px, r.leaves).bal[k].reserved == a.bal[k].reserved - LockOf(a, k)(r)
  {
    hide Reservation;
  }

  lemma SubmitDrift(c: Config, e: Engine, q: Request, v: Env, routed: bool, k: nat)
    requires Ok(e) && IdsIssued(e) && v.mid2 >= 0 && e.counter + 1 < COUNTER_IDS && k < |e.acct.bal|
    ensures var f := Submit(c, e, q, v, routed); k < |f.acct.bal| && Drift(f, k) == Drift(e, k)
  {
    hide SumRows, Reserve, SameShape, CheckNew, LockOf, NextId;
    if SubmitVerdict(c, e, q, v) == NoReject {
      InsertSucceeds(c, e, q, v);
      var row := NewRow(q, NextId(e.gen, e.counter), v);
      VerdictMeans(c, e, q, v);
      var b := Reserve(e.acct, q.instrument, q.side, row.px, q.qty);
      ReserveMoves(e.acct, row, k);
      SumAppend(e.rows, row, LockOf(e.acct, k));
      LocksSame(e.acct, b, k, e.rows + [row]);
      BalancesSame(e.acct, b);
    }
  }

  lemma BalancesSame(a: Acct, b: Acct)
    requires SameShape(a, b)
    ensures |a.bal| == |b.bal| && forall inst :: Trades(a, inst) ==> Trades(b, inst)
  {
  }

  lemma FinishDrift(e: Engine, i: nat, k: nat)
    requires Ok(e) && i < |e.rows| && k < |e.acct.bal|
    ensures var f := Finish(e, i); k < |f.acct.bal| && Drift(f, k) == Drift(e, k)
  {
    hide SumRows, Release, SameShape, LockOf;
    var r := e.rows[i];
    var b := Release(e.acct, r.instrument, r.side, r.px, r.leaves);
    ReserveMoves(e.acct, r, k);
    SumSwapRemove(e.rows, i, LockOf(e.acct, k));
    LocksSame(e.acct, b, k, SwapRemove(e.rows, i));
    BalancesSame(e.acct, b);
  }

  lemma ReplacedDrift(e: Engine, i: nat, k: nat)
    requires Ok(e) && i < |e.rows| && k < |e.acct.bal|
    ensures var f := ApplyReplaced(e, i); k < |f.acct.bal| && Drift(f, k) == Drift(e, k)
  {
    hide SumRows, Release, Reserve, SameShape, LockOf;
    var r, n := e.rows[i], ReplacedRow(e.rows[i]);
    var a := Release(e.acct, r.instrument, r.side, r.px, r.leaves);
    BalancesSame(e.acct, a);
    var b := Reserve(a, r.instrument, r.side, n.px, n.leaves);
    BalancesSame(a, b);
    ReserveMoves(e.acct, r, k);
    ReserveMoves(a, n, k);
    LockSame(e.acct, a, k, n);
    SumUpdate(e.rows, i, n, LockOf(e.acct, k));
    LocksSame(e.acct, a, k, e.rows[i := n]);
    LocksSame(a, b, k, e.rows[i := n]);
  }

  /** What a fill of the i-th row strands in asset k. */
  function StrandedBy(e: Engine, i: nat, rep: Report, k: nat): nat
    requires i < |e.rows| && Trades(e.acct, e.rows[i].instrument)
  {
    var r := e.rows[i];
    var inst := InstOf(e.acct, r.instrument);
    if SideAsset(inst, r.side) == k && r.px >= 0 && 0 <= rep.lastQty <= r.leaves
    then Stranded(inst, r.side, r.px, r.leaves, rep.lastQty) else 0
  }

  /** An execution moves the drift of its asset by exactly what the split of the row's lock strands. */
  lemma FillDrift(e: Engine, i: nat, rep: Report, k: nat)
    requires Ok(e) && RowsSane(e) && i < |e.rows| && k < |e.acct.bal| && 0 <= rep.lastQty <= e.rows[i].leaves
    ensures var f := ApplyFill(e, i, rep);
            k < |f.acct.bal| && Drift(f, k) == Drift(e, k) + StrandedBy(e, i, rep, k)
  {
    hide SumRows, OnFill, Reservation, SameShape, WellFormed, Release, Stranded;
    var r, n := e.rows[i], FilledRow(e.rows[i], rep);
    var a := OnFill(e.acct, r.instrument, r.side, rep.lastPx, rep.lastQty, r.px, rep.fee, rep.feeInBase);
    var f := e.(acct := a, rows := e.rows[i := n], st := e.st.(fills := e.st.fills + 1));
    BalancesSame(e.acct, a);
    FillMoves(e.acct, r, rep, k);
    ReservationSplits(InstOf(e.acct, r.instrument), r.side, r.px, r.leaves, rep.lastQty);
    SumUpdate(e.rows, i, n, LockOf(e.acct, k));
    LocksSame(e.acct, a, k, f.rows);
    if n.leaves == 0 {
      UniqueUpdate(e.rows, i, n);
      assert Ok(f) by { OkAfterFill(e, i, rep); }
      FinishDrift(f, i, k);
    }
  }

  lemma OkAfterFill(e: Engine, i: nat, rep: Report)
    requires Ok(e) && i < |e.rows|
    ensures var r := e.rows[i];
            Ok(e.(acct := OnFill(e.acct, r.instrument, r.side, rep.lastPx, rep.lastQty, r.px, rep.fee, rep.feeInBase),
                  rows := e.rows[i := FilledRow(r, rep)], st := e.st.(fills := e.st.fills + 1)))
  {
    hide OnFill, SameShape, WellFormed;
    var r := e.rows[i];
    BalancesSame(e.acct, OnFill(e.acct, r.instrument, r.side, rep.lastPx, rep.lastQty, r.px, rep.fee, rep.feeInBase));
  }

  lemma FillMoves(a: Acct, r: OrderRow, rep: Report, k: nat)
    requires WellFormed(a) && Trades(a, r.instrument) && k < |a.bal|
    ensures OnFill(a, r.instrument, r.side, rep.lastPx, rep.lastQty, r.px, rep.fee, rep.feeInBase).bal[k].reserved
            == a.bal[k].reserved - LockOf(a, k)(r.(leaves := rep.lastQty))
  {
    hide Reservation, TlToMoney, Filled, FeeInQuote, EquityOf;
  }

  // Steps and runs.

  /** Changing what a row does not lock by. */
  lemma TouchDrift(e: Engine, i: nat, r: OrderRow, st: Stats, k: nat)
    requires i < |e.rows| && k < |e.acct.bal|
    requires r.instrument == e.rows[i].instrument && r.side == e.rows[i].side
    requires r.px == e.rows[i].px && r.leaves == e.rows[i].leaves
    ensures Drift(e.(rows := e.rows[i := r], st := st), k) == Drift(e, k)
  {
    hide SumRows, Reservation;
    SumUpdate(e.rows, i, r, LockOf(e.acct, k));
  }

  /** One step moves an asset's drift by exactly what it strands. */
  lemma StepDrift(c: Config, e: Engine, a: Action, k: nat)
    requires Ok(e) && IdsIssued(e) && RowsSane(e) && Legal(e, a) && k < |e.acct.bal|
    ensures var f := Step(c, e, a); k < |f.acct.bal| && Drift(f, k) == Drift(e, k) + StrandedIn(e, a, k)
  {
    hide CheckReplace, CheckNew, Drift, WellFormed, FindRow, Submit;
    match a {
      case SubmitA(q, v, routed) => SubmitDrift(c, e, q, v, routed, k);
      case ReplaceA(id, px, qty, v, routed) =>
        var p := FindRow(e.rows, id);
        CountSpares(e, k);
        if p.Some? {
          var r := e.rows[p.value].(pendingReplace := true, newPx := px, newQty := qty);
          TouchDrift(e, p.value, r, e.st.(ordersReplace := e.st.ordersReplace + 1), k);
        }
      case CancelA(id, routed) =>
        var p := FindRow(e.rows, id);
        CountSpares(e, k);
        if p.Some? {
          TouchDrift(e, p.value, e.rows[p.value].(pendingCancel := true),
                     e.st.(ordersCancel := e.st.ordersCancel + 1), k);
        }
      case ReportA(rep, now) => ReportDrift(e, rep, now, k);
      case MarkA(inst, bid, ask) => MarkDrift(e, inst, bid, ask, k);
    }
  }

  /** What a step strands in asset k: something only in a fill of a live order. */
  function StrandedIn(e: Engine, a: Action, k: nat): nat
    requires Ok(e)
  {
    match a
    case ReportA(rep, _) =>
      var p := FindRow(e.rows, rep.id);
      if p.Some? && (rep.kind == PartialFill || rep.kind == FullFill) then StrandedBy(e, p.value, rep, k) else 0
    case _ => 0
  }

  /** At most a unit for each fill, and nothing where nothing divides. */
  lemma StrandedAtMost(c: Config, e: Engine, a: Action, k: nat)
    requires Ok(e)
    ensures StrandedIn(e, a, k) <= Step(c, e, a).st.fills - e.st.fills
    ensures Unrounded(e.acct, k) ==> StrandedIn(e, a, k) == 0
  {
    hide CheckReplace, SubmitVerdict, WellFormed, FindRow, Submit, Release, Reserve, OnFill, Marked;
    if a.SubmitA? {
      SubmitSparesFills(c, e, a.q, a.env, a.routed);
    }
  }

  lemma SubmitSparesFills(c: Config, e: Engine, q: Request, v: Env, routed: bool)
    requires WellFormed(e.acct)
    ensures Submit(c, e, q, v, routed).st.fills == e.st.fills
  {
    hide CheckNew, Reserve;
  }

  lemma CountSpares(e: Engine, k: nat)
    requires k < |e.acct.bal|
    ensures forall st :: Drift(e.(st := st), k) == Drift(e, k)
  {
  }

  lemma MarkDrift(e: Engine, inst: nat, bid: int, ask: int, k: nat)
    requires WellFormed(e.acct) && k < |e.acct.bal|
    ensures var f := e.(acct := Marked(e.acct, inst, bid, ask)); k < |f.acct.bal| && Drift(f, k) == Drift(e, k)
  {
    hide EquityOf, SumRows, LockOf;
    var b := Marked(e.acct, inst, bid, ask);
    LocksSame(e.acct, b, k, e.rows);
    assert b.bal == e.acct.bal;
  }

  lemma ReportDrift(e: Engine, rep: Report, now: int, k: nat)
    requires Ok(e) && RowsSane(e) && Legal(e, ReportA(rep, now)) && k < |e.acct.bal|
    ensures var f := ApplyReport(e, rep, now);
            k < |f.acct.bal| && Drift(f, k) == Drift(e, k) + StrandedIn(e, ReportA(rep, now), k)
  {
    hide Drift, StrandedBy, WellFormed, FindRow, Release, Reserve, OnFill;
    var p := FindRow(e.rows, rep.id);
    CountSpares(e, k);
    if p.Some? {
      var i, r := p.value, e.rows[p.value];
      match rep.kind {
        case Acked => TouchDrift(e, i, r.(status := New, tAck := now), e.st.(acks := e.st.acks + 1), k);
        case PartialFill => FillDrift(e, i, rep, k);
        case FullFill => FillDrift(e, i, rep, k);
        case Replaced => ReplacedDrift(e, i, k);
        case CancelRejected => TouchDrift(e, i, r.(pendingCancel := false, pendingReplace := false), e.st, k);
        case Restated =>
        case _ =>
          FinishDrift(e, i, k);
          CountSpares(Finish(e, i), k);
      }
    }
  }

  /** What the fills of a run strand in asset k. */
  function StrandedOver(c: Config, e: Engine, actions: seq<Action>, k: nat): nat
    requires Ok(e)
  {
    if actions == [] then 0
    else
      var front := actions[..|actions| - 1];
      StrandedOver(c, e, front, k) + StrandedIn(Run(c, e, front), actions[|actions| - 1], k)
  }

  /** No fill of the run splits a lock with a carry. */
  ghost predicate NothingCarries(c: Config, e: Engine, actions: seq<Action>, k: nat)
    requires Ok(e)
  {
    forall j {:trigger actions[j]} :: 0 <= j < |actions| ==> StrandedIn(Run(c, e, actions[..j]), actions[j], k) == 0
  }

  lemma {:induction false} StrandedNothing(c: Config, e: Engine, actions: seq<Action>, k: nat)
    requires Ok(e)
    ensures StrandedOver(c, e, actions, k) == 0 <==> NothingCarries(c, e, actions, k)
  {
    hide StrandedIn, Run, Ok;
    if actions != [] {
      var n := |actions| - 1;
      var front := actions[..n];
      StrandedNothing(c, e, front, k);
      assert forall j :: 0 <= j < n ==> front[j] == actions[j] && front[..j] == actions[..j];
    }
  }

  /**
   In every legal run, what an asset has reserved beyond its live rows' locks is exactly what the
   run's fills stranded: zero just when none of them carries, which is so where no conversion
   divides, and never more than the number of fills.
   */
  lemma {:induction false} RunDrift(c: Config, e: Engine, actions: seq<Action>, k: nat)
    requires Ok(e) && IdsIssued(e) && RowsSane(e) && LegalRun(c, e, actions)
    requires k < |e.acct.bal| && Drift(e, k) == 0
    ensures var r := Run(c, e, actions);
            && IdsIssued(r) && RowsSane(r) && SameShape(e.acct, r.acct) && k < |r.acct.bal|
            && Drift(r, k) == StrandedOver(c, e, actions, k) && 0 <= Drift(r, k) <= r.st.fills - e.st.fills
            && (Drift(r, k) == 0 <==> NothingCarries(c, e, actions, k))
            && (Unrounded(e.acct, k) ==> Drift(r, k) == 0)
  {
    hide Drift, Unrounded, Step, Legal, RowsSane, IdsIssued, Ok, SameShape, WellFormed, StrandedIn, NothingCarries,
         LegalRun;
    StrandedNothing(c, e, actions, k);
    RunKeeps(c, e, actions);
    if actions != [] {
      LegalFront(c, e, actions);
      var front, a := actions[..|actions| - 1], actions[|actions| - 1];
      RunDrift(c, e, front, k);
      var b := Run(c, e, front);
      StepDrift(c, b, a, k);
      StrandedAtMost(c, b, a, k);
      UnroundedSame(e.acct, b.acct, k);
    }
  }
}
