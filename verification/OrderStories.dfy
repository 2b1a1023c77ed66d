/**
 Each order's own story, told from what was asked of it and reported about it: its terms, what has filled, and
 the requests in flight. In every legal run the live rows are those stories, one for one.
 */
module OrderStories {
  import opened Common
  import opened OrderTypes
  import opened AccountModule
  import opened Engine
  import opened LegalRuns

  datatype Terms = Terms(px: int, qty: int)

  // What an order is for, its terms now, the lots filled, the amend it awaits and whether it awaits a cancel.
  datatype Story = Story(inst: nat, side: Side, tif: Tif, terms: Terms, filled: int, asked: Option<Terms>,
                         leaving: bool)

  type Stories = map<nat, Story>

  /** The terms a new order has: a market order's price is half of bid plus ask. */
  function Opening(q: Request, v: Env): Story {
    Story(q.instrument, q.side, q.tif, Terms(if q.px > 0 then q.px else TruncDiv(v.mid2, 2), q.qty), 0, None, false)
  }

  /** What a report tells; none when the story ends with it. */
  function Told(s: Story, rep: Report): Option<Story> {
    match rep.kind
    case PartialFill =>
      if s.filled + rep.lastQty == s.terms.qty then None else Some(s.(filled := s.filled + rep.lastQty))
    case FullFill =>
      if s.filled + rep.lastQty == s.terms.qty then None else Some(s.(filled := s.filled + rep.lastQty))
    case Replaced => if s.asked.Some? then Some(s.(terms := s.asked.value, asked := None)) else Some(s)
    case CancelRejected => Some(s.(asked := None, leaving := false))
    case Canceled => None
    case Expired => None
    case Rejected => None
    case Acked => Some(s)
    case Restated => Some(s)
  }

  function Telling(c: Config, e: Engine, a: Action, ss: Stories): Stories
    requires Ok(e)
  {
    match a
    case SubmitA(q, v, routed) =>
      if SubmitVerdict(c, e, q, v) == NoReject && routed
      then ss[e.gen * COUNTER_IDS + e.counter + 1 := Opening(q, v)] else ss
    case ReplaceA(id, px, qty, v, routed) =>
      if ReplaceAsked(c, e, id, px, qty, v) && routed && id in ss
      then ss[id := ss[id].(asked := Some(Terms(px, qty)))] else ss
    case CancelA(id, routed) => if id in ss && routed then ss[id := ss[id].(leaving := true)] else ss
    case ReportA(rep, _) =>
      if rep.id !in ss then ss
      else
        var t := Told(ss[rep.id], rep);
        if t.Some? then ss[rep.id := t.value] else ss - {rep.id}
    case MarkA(_, _, _) => ss
  }

  function StoriesOf(c: Config, e: Engine, actions: seq<Action>): Stories
    requires Ok(e)
  {
    if actions == [] then map[]
    else
      var n := |actions| - 1;
      Telling(c, Run(c, e, actions[..n]), actions[n], StoriesOf(c, e, actions[..n]))
  }

  /** The row has the story's terms, its lots filled and left, and its requests in flight. */
  ghost predicate RowTells(r: OrderRow, s: Story) {
    && r.instrument == s.inst && r.side == s.side && r.tif == s.tif
    && r.px == s.terms.px && r.qty == s.terms.qty && r.cum == s.filled && r.leaves == s.terms.qty - s.filled
    && r.pendingCancel == s.leaving && (r.pendingReplace <==> s.asked.Some?)
    && (s.asked.Some? ==> s.asked.value == Terms(r.newPx, r.newQty))
  }

  ghost predicate AllTold(rows: seq<OrderRow>, ss: Stories) {
    && (forall i :: 0 <= i < |rows| ==> rows[i].id in ss && RowTells(rows[i], ss[rows[i].id]))
    && (forall id :: id in ss <==> FindRow(rows, id).Some?)
  }

  // Steps.

  lemma EntryTold(rows: seq<OrderRow>, ss: Stories, r: OrderRow, s: Story)
    requires UniqueIds(rows) && AllTold(rows, ss) && FindRow(rows, r.id).None? && RowTells(r, s)
    ensures AllTold(rows + [r], ss[r.id := s])
  {
    hide FindRow, RowTells;
    FindAppend(rows, r);
  }

  lemma UpdateTold(rows: seq<OrderRow>, ss: Stories, i: nat, r: OrderRow, s: Story)
    requires UniqueIds(rows) && AllTold(rows, ss) && i < |rows| && r.id == rows[i].id && RowTells(r, s)
    ensures AllTold(rows[i := r], ss[r.id := s])
  {
    hide FindRow, RowTells;
    FindUpdate(rows, i, r);
  }

  lemma EndTold(rows: seq<OrderRow>, ss: Stories, i: nat)
    requires UniqueIds(rows) && AllTold(rows, ss) && i < |rows|
    ensures AllTold(SwapRemove(rows, i), ss - {rows[i].id})
  {
    hide FindRow, RowTells;
    FindSwapRemove(rows, i);
  }

  lemma ReportTold(e: Engine, rep: Report, now: int, ss: Stories)
    requires Ok(e) && AllTold(e.rows, ss) && Legal(e, ReportA(rep, now))
    ensures var f := ApplyReport(e, rep, now);
            AllTold(f.rows, if rep.id !in ss then ss
                            else var t := Told(ss[rep.id], rep);
                                 if t.Some? then ss[rep.id := t.value] else ss - {rep.id})
  {
    hide FindRow, Release, Reserve, OnFill, WellFormed, AllTold, SwapRemove;
    Found(e.rows, ss, rep.id);
    var p := FindRow(e.rows, rep.id);
    if p.Some? {
      var i, r, s := p.value, e.rows[p.value], ss[rep.id];
      match rep.kind {
        case Acked => UpdateTold(e.rows, ss, i, r.(status := New, tAck := now), s);
        case PartialFill => FillTold(e, i, rep, ss);
        case FullFill => FillTold(e, i, rep, ss);
        case Replaced => UpdateTold(e.rows, ss, i, ReplacedRow(r), Told(s, rep).value);
        case CancelRejected =>
          UpdateTold(e.rows, ss, i, r.(pendingCancel := false, pendingReplace := false), Told(s, rep).value);
        case Restated => SameTold(e.rows, ss, rep.id);
        case _ => EndTold(e.rows, ss, i);
      }
    }
  }

  lemma SameTold(rows: seq<OrderRow>, ss: Stories, id: nat)
    requires AllTold(rows, ss) && id in ss
    ensures AllTold(rows, ss[id := ss[id]])
  {
    assert ss[id := ss[id]] == ss;
  }

  lemma Found(rows: seq<OrderRow>, ss: Stories, id: nat)
    requires AllTold(rows, ss)
    ensures id in ss <==> FindRow(rows, id).Some?
    ensures id in ss ==> RowTells(rows[FindRow(rows, id).value], ss[id])
  {
    hide FindRow, RowTells;
  }

  lemma FillTold(e: Engine, i: nat, rep: Report, ss: Stories)
    requires Ok(e) && AllTold(e.rows, ss) && i < |e.rows| && e.rows[i].id == rep.id
    requires 0 <= rep.lastQty <= e.rows[i].leaves && (rep.kind == PartialFill || rep.kind == FullFill)
    requires rep.id in ss && RowTells(e.rows[i], ss[rep.id])
    ensures var t := Told(ss[rep.id], rep);
            AllTold(ApplyFill(e, i, rep).rows, if t.Some? then ss[rep.id := t.value] else ss - {rep.id})
  {
    hide Release, OnFill, WellFormed, AllTold, SwapRemove;
    var s, r := ss[rep.id], FilledRow(e.rows[i], rep);
    var more := s.(filled := s.filled + rep.lastQty);
    UpdateTold(e.rows, ss, i, r, more);
    UniqueUpdate(e.rows, i, r);
    if r.leaves == 0 {
      EndTold(e.rows[i := r], ss[rep.id := more], i);
      assert ss[rep.id := more] - {rep.id} == ss - {rep.id};
    }
  }

  lemma StepTold(c: Config, e: Engine, a: Action, ss: Stories)
    requires Ok(e) && IdsIssued(e) && AllTold(e.rows, ss) && Legal(e, a)
    ensures AllTold(Step(c, e, a).rows, Telling(c, e, a, ss))
  {
    hide FindRow, CheckNew, CheckReplace, Reserve, ApplyReport, Marked, WellFormed, AllTold, Told;
    match a {
      case SubmitA(q, v, routed) =>
        if SubmitVerdict(c, e, q, v) == NoReject {
          InsertSucceeds(c, e, q, v);
          var r := NewRow(q, NextId(e.gen, e.counter), v);
          UniqueAppend(e.rows, r);
          Fresh(e, r.id);
          EntryTold(e.rows, ss, r, Opening(q, v));
        }
      case ReplaceA(id, px, qty, v, routed) =>
        Found(e.rows, ss, id);
        if ReplaceAsked(c, e, id, px, qty, v) && routed {
          var i := FindRow(e.rows, id).value;
          UpdateTold(e.rows, ss, i, e.rows[i].(pendingReplace := true, newPx := px, newQty := qty),
                     ss[id].(asked := Some(Terms(px, qty))));
        }
      case CancelA(id, routed) =>
        Found(e.rows, ss, id);
        if id in ss && routed {
          var i := FindRow(e.rows, id).value;
          UpdateTold(e.rows, ss, i, e.rows[i].(pendingCancel := true), ss[id].(leaving := true));
          assert e.rows[i].pendingCancel ==> e.rows[i := e.rows[i].(pendingCancel := true)] == e.rows;
        }
      case ReportA(rep, now) => ReportTold(e, rep, now, ss);
      case MarkA(_, _, _) =>
    }
  }

  lemma Fresh(e: Engine, id: nat)
    requires IdsIssued(e) && id > e.gen * COUNTER_IDS + e.counter
    ensures FindRow(e.rows, id).None?
  {
  }

  /**
   In every legal run from an empty table an order is live if and only if its story goes on, and its row has the
   terms it was opened with or last amended to, exactly the lots filled so far, and leaves of the difference.
   */
  lemma {:induction false} RunTold(c: Config, e: Engine, actions: seq<Action>)
    requires Ok(e) && IdsIssued(e) && RowsSane(e) && e.rows == [] && LegalRun(c, e, actions)
    ensures AllTold(Run(c, e, actions).rows, StoriesOf(c, e, actions))
  {
    hide Step, Legal, Ok, IdsIssued, RowsSane, Telling, RowTells;
    if actions != [] {
      var n := |actions| - 1;
      LegalFront(c, e, actions);
      RunTold(c, e, actions[..n]);
      RunKeeps(c, e, actions[..n]);
      StepTold(c, Run(c, e, actions[..n]), actions[n], StoriesOf(c, e, actions[..n]));
    }
  }

  // Counting.

  /** Orders whose last lot has filled. */
  function Completed(c: Config, e: Engine, actions: seq<Action>): nat
    requires Ok(e)
  {
    if actions == [] then 0
    else
      var n := |actions| - 1;
      Completed(c, e, actions[..n]) + if Completes(StoriesOf(c, e, actions[..n]), actions[n]) then 1 else 0
  }

  predicate Completes(ss: Stories, a: Action) {
    && a.ReportA? && a.rep.kind in {PartialFill, FullFill} && a.rep.id in ss
    && ss[a.rep.id].filled + a.rep.lastQty == ss[a.rep.id].terms.qty
  }

  /** Orders sent that are neither live nor counted as ended. */
  function Missing(e: Engine): int {
    e.st.ordersNew - |e.rows| - e.st.canceled - e.st.expired - e.st.venueRejects
  }

  lemma StepCounts(c: Config, e: Engine, a: Action, ss: Stories)
    requires Ok(e) && IdsIssued(e) && AllTold(e.rows, ss) && Legal(e, a)
    ensures Missing(Step(c, e, a)) == Missing(e) + if Completes(ss, a) then 1 else 0
  {
    hide FindRow, CheckNew, CheckReplace, Reserve, Release, OnFill, Marked, WellFormed, AllTold;
    match a {
      case SubmitA(q, v, routed) =>
        if SubmitVerdict(c, e, q, v) == NoReject {
          InsertSucceeds(c, e, q, v);
        }
      case ReportA(rep, now) => Found(e.rows, ss, rep.id);
      case _ =>
    }
  }

  /** No order is lost: what was sent is live, or canceled, expired, rejected by the venue, or completely filled. */
  lemma {:induction false} OrdersConserved(c: Config, e: Engine, actions: seq<Action>)
    requires Ok(e) && IdsIssued(e) && RowsSane(e) && e.rows == [] && e.st == NO_STATS && LegalRun(c, e, actions)
    ensures var r := Run(c, e, actions);
            r.st.ordersNew == |r.rows| + r.st.canceled + r.st.expired + r.st.venueRejects + Completed(c, e, actions)
  {
    hide Step, Legal, Ok, IdsIssued, RowsSane, Telling, RowTells;
    if actions != [] {
      var n := |actions| - 1;
      LegalFront(c, e, actions);
      OrdersConserved(c, e, actions[..n]);
      RunTold(c, e, actions[..n]);
      RunKeeps(c, e, actions[..n]);
      StepCounts(c, Run(c, e, actions[..n]), actions[n], StoriesOf(c, e, actions[..n]));
    }
  }

  /** Reports of a kind that found their order live. */
  function Reported(c: Config, e: Engine, actions: seq<Action>, kind: ExecType): nat
    requires Ok(e)
  {
    if actions == [] then 0
    else
      var n := |actions| - 1;
      Reported(c, e, actions[..n], kind) + if Reports(StoriesOf(c, e, actions[..n]), actions[n], kind) then 1 else 0
  }

  predicate Reports(ss: Stories, a: Action, kind: ExecType) {
    a.ReportA? && a.rep.id in ss && a.rep.kind == kind
  }

  /** Reports of an order that was not live. */
  function Strays(c: Config, e: Engine, actions: seq<Action>): nat
    requires Ok(e)
  {
    if actions == [] then 0
    else
      var n := |actions| - 1;
      Strays(c, e, actions[..n]) + if Strayed(StoriesOf(c, e, actions[..n]), actions[n]) then 1 else 0
  }

  predicate Strayed(ss: Stories, a: Action) {
    a.ReportA? && a.rep.id !in ss
  }

  lemma ReportCounts(c: Config, e: Engine, a: Action, ss: Stories)
    requires Ok(e) && IdsIssued(e) && AllTold(e.rows, ss) && Legal(e, a)
    ensures var s, t := e.st, Step(c, e, a).st;
            && t.acks == s.acks + (if Reports(ss, a, Acked) then 1 else 0)
            && t.fills == s.fills + (if Reports(ss, a, PartialFill) || Reports(ss, a, FullFill) then 1 else 0)
            && t.replaced == s.replaced + (if Reports(ss, a, Replaced) then 1 else 0)
            && t.canceled == s.canceled + (if Reports(ss, a, Canceled) then 1 else 0)
            && t.expired == s.expired + (if Reports(ss, a, Expired) then 1 else 0)
            && t.venueRejects == s.venueRejects + (if Reports(ss, a, Rejected) then 1 else 0)
            && t.unsolicited == s.unsolicited + (if Strayed(ss, a) then 1 else 0)
  {
    hide FindRow, SubmitVerdict, CheckReplace, Reserve, Marked, WellFormed, AllTold, RowTells, ApplyReport, Inserted,
         Erased;
    if a.ReportA? {
      Found(e.rows, ss, a.rep.id);
      ReportStats(e, a.rep, a.now);
    }
  }

  /** What a report counts as, and whether it ends its order. */
  lemma ReportStats(e: Engine, rep: Report, now: int)
    requires Ok(e)
    ensures var f, live := ApplyReport(e, rep, now), FindRow(e.rows, rep.id).Some?;
            && f.st == e.st.(acks := f.st.acks, fills := f.st.fills, replaced := f.st.replaced,
                             canceled := f.st.canceled, expired := f.st.expired, venueRejects := f.st.venueRejects,
                             unsolicited := f.st.unsolicited)
            && f.st.acks == e.st.acks + (if live && rep.kind == Acked then 1 else 0)
            && f.st.fills == e.st.fills + (if live && rep.kind in {PartialFill, FullFill} then 1 else 0)
            && f.st.replaced == e.st.replaced + (if live && rep.kind == Replaced then 1 else 0)
            && f.st.canceled == e.st.canceled + (if live && rep.kind == Canceled then 1 else 0)
            && f.st.expired == e.st.expired + (if live && rep.kind == Expired then 1 else 0)
            && f.st.venueRejects == e.st.venueRejects + (if live && rep.kind == Rejected then 1 else 0)
            && f.st.unsolicited == e.st.unsolicited + (if live then 0 else 1)
  {
    hide FindRow, Reserve, Release, OnFill, WellFormed;
  }

  /** Every counter of the venue's reports is the number of those reports that found their order live, or did not. */
  lemma {:induction false} ReportsCounted(c: Config, e: Engine, actions: seq<Action>)
    requires Ok(e) && IdsIssued(e) && RowsSane(e) && e.rows == [] && e.st == NO_STATS && LegalRun(c, e, actions)
    ensures var st := Run(c, e, actions).st;
            && st.acks == Reported(c, e, actions, Acked)
            && st.fills == Reported(c, e, actions, PartialFill) + Reported(c, e, actions, FullFill)
            && st.replaced == Reported(c, e, actions, Replaced)
            && st.canceled == Reported(c, e, actions, Canceled)
            && st.expired == Reported(c, e, actions, Expired)
            && st.venueRejects == Reported(c, e, actions, Rejected)
            && st.unsolicited == Strays(c, e, actions)
  {
    hide Step, Legal, Ok, IdsIssued, RowsSane, Telling, RowTells, AllTold;
    if actions != [] {
      var n := |actions| - 1;
      LegalFront(c, e, actions);
      ReportsCounted(c, e, actions[..n]);
      RunTold(c, e, actions[..n]);
      RunKeeps(c, e, actions[..n]);
      ReportCounts(c, Run(c, e, actions[..n]), actions[n], StoriesOf(c, e, actions[..n]));
    }
  }
}
